/** The task records kept by the scheduler and the pure parts of running one: the run date a
    request asks for, the agent call a task type turns into, the outcome of a run, the
    session query, and what rescheduling does to the pending timers. */
module Tasks {
  import opened Common

  /** Seconds on the scheduler's clock. */
  type Time = int

  /** A request without a usable schedule time runs this many seconds after it is made. */
  const OneMinute: Time := 60

  datatype TaskStatus = Scheduled | Running | Completed | Failed | Cancelled

  /** The stored task record; a field that the source adds to the record later is `None` until then. */
  datatype Task = Task(
    taskId: string,
    taskType: string,
    sessionId: string,
    agentType: string,
    parameters: map<string, string>,
    createdAt: Time,
    scheduledFor: Time,
    status: TaskStatus,
    error: Option<string>,
    result: Option<string>,
    startedAt: Option<Time>,
    completedAt: Option<Time>,
    failedAt: Option<Time>,
    cancelledAt: Option<Time>,
    rescheduledAt: Option<Time>)

  /** A freshly scheduled record. */
  function NewTask(taskId: string, taskType: string, sessionId: string, agentType: string,
                   parameters: map<string, string>, now: Time, runDate: Time): Task
  {
    Task(taskId, taskType, sessionId, agentType, parameters, now, runDate, Scheduled,
         None, None, None, None, None, None, None)
  }

  // ---------------------------------------------------------------------------
  // Run dates

  /** Every `Z` replaced by `+00:00`, as the source prepares an ISO time for parsing. */
  function ReplaceZ(s: string): (r: string)
    ensures 'Z' !in r
    ensures |r| >= |s|
  {
    if s == [] then []
    else (if s[0] == 'Z' then "+00:00" else [s[0]]) + ReplaceZ(s[1..])
  }

  /** Replacing distributes over concatenation. */
  lemma {:induction false} ReplaceZAppend(a: string, b: string)
    ensures ReplaceZ(a + b) == ReplaceZ(a) + ReplaceZ(b)
  {
    if a != [] {
      var head := if a[0] == 'Z' then "+00:00" else [a[0]];
      assert (a + b)[0] == a[0];
      assert (a + b)[1..] == a[1..] + b;
      ReplaceZAppend(a[1..], b);
      calc {
        ReplaceZ(a + b);
        head + ReplaceZ(a[1..] + b);
        head + (ReplaceZ(a[1..]) + ReplaceZ(b));
        (head + ReplaceZ(a[1..])) + ReplaceZ(b);
        ReplaceZ(a) + ReplaceZ(b);
      }
    } else {
      assert a + b == b;
    }
  }

  /** A single character: `Z` becomes the UTC offset `+00:00`, any other stays. With
      `ReplaceZAppend` this fixes the result on every string. */
  lemma ReplaceZOne(c: char)
    ensures ReplaceZ([c]) == if c == 'Z' then "+00:00" else [c]
  {
    assert [c][1..] == [];
  }

  /** A string without `Z` is left as it is. */
  lemma {:induction false} ReplaceZIdentity(s: string)
    requires 'Z' !in s
    ensures ReplaceZ(s) == s
  {
    if s != [] {
      assert 'Z' !in s[1..];
      ReplaceZIdentity(s[1..]);
    }
  }

  /** Replacing twice is replacing once. */
  lemma ReplaceZIdempotent(s: string)
    ensures ReplaceZ(ReplaceZ(s)) == ReplaceZ(s)
  {
    ReplaceZIdentity(ReplaceZ(s));
  }

  /** The run date of a request: the parse of the given time with `Z` read as `+00:00`, or one
      minute from now when no time is given, the time is empty, or it does not parse. */
  function RunDate(scheduleTime: Option<string>, now: Time, parse: string -> Option<Time>): (r: Time)
    ensures scheduleTime.Some? && scheduleTime.value != "" && parse(ReplaceZ(scheduleTime.value)).Some?
            ==> r == parse(ReplaceZ(scheduleTime.value)).value
    ensures scheduleTime.None? || scheduleTime.value == "" || parse(ReplaceZ(scheduleTime.value)).None?
            ==> r == now + OneMinute
  {
    if scheduleTime.Some? && scheduleTime.value != "" then
      match parse(ReplaceZ(scheduleTime.value))
      case Some(t) => t
      case None => now + OneMinute
    else now + OneMinute
  }

  // ---------------------------------------------------------------------------
  // Dispatch by task type

  /** What the task asks of its agent. */
  datatype AgentCall =
    | Chat(prompt: string, sessionId: string)
    | AnalyzeFile(fileName: string, filePath: string, sessionId: string)

  /** What the agent does with a call: it returns a result, or it raises with a message. */
  datatype CallOutcome = Returned(value: string) | Raised(message: string)

  const FileAnalysisMissing: string := "file_path and file_name required for file_analysis task"

  /** The parameter under `key`, or `default` when it is absent. */
  function GetOr(parameters: map<string, string>, key: string, default: string): string
  {
    if key in parameters then parameters[key] else default
  }

  /** Whether the parameter under `key` is present and not empty. */
  predicate Given(parameters: map<string, string>, key: string)
  {
    key in parameters && parameters[key] != ""
  }

  function AuditPrompt(auditType: string): string
  {
    "Generate a comprehensive " + auditType + " audit report based on previous analysis."
  }

  function TaxPrompt(taxYear: string): string
  {
    "Perform tax calculations and optimization analysis for " + taxYear + "."
  }

  function ConsultationPrompt(topic: string): string
  {
    "Provide consultation on: " + topic
  }

  /** The agent call for a task, by task type; a file analysis without a non-empty path and
      name is refused before any call. `year` is the current calendar year, the default tax year. */
  function BuildCall(taskType: string, sessionId: string, parameters: map<string, string>, year: nat): (r: Result<AgentCall, string>)
    ensures r.Err? <==> taskType == "file_analysis" && !(Given(parameters, "file_path") && Given(parameters, "file_name"))
    ensures r.Err? ==> r.error == FileAnalysisMissing
    ensures r.Ok? ==> r.value.sessionId == sessionId
    ensures r.Ok? && taskType == "file_analysis" ==>
      r.value == AnalyzeFile(parameters["file_name"], parameters["file_path"], sessionId)
    ensures r.Ok? && taskType != "file_analysis" ==> r.value.Chat?
  {
    if taskType == "file_analysis" then
      if !Given(parameters, "file_path") || !Given(parameters, "file_name") then Err(FileAnalysisMissing)
      else Ok(AnalyzeFile(parameters["file_name"], parameters["file_path"], sessionId))
    else if taskType == "audit_report" then
      Ok(Chat(AuditPrompt(GetOr(parameters, "audit_type", "financial")), sessionId))
    else if taskType == "tax_calculation" then
      Ok(Chat(TaxPrompt(GetOr(parameters, "tax_year", NatToString(year))), sessionId))
    else if taskType == "consultation" then
      Ok(Chat(ConsultationPrompt(GetOr(parameters, "topic", "general financial consultation")), sessionId))
    else
      Ok(Chat(GetOr(parameters, "prompt", "Please provide analysis"), sessionId))
  }

  /** The prompts of the four chat task types with their parameters absent. */
  lemma DefaultPrompts(sessionId: string, year: nat)
    ensures BuildCall("audit_report", sessionId, map[], year) == Ok(Chat(AuditPrompt("financial"), sessionId))
    ensures BuildCall("tax_calculation", sessionId, map[], year) == Ok(Chat(TaxPrompt(NatToString(year)), sessionId))
    ensures BuildCall("consultation", sessionId, map[], year)
         == Ok(Chat(ConsultationPrompt("general financial consultation"), sessionId))
    ensures BuildCall("custom", sessionId, map[], year) == Ok(Chat("Please provide analysis", sessionId))
  {
    assert "audit_report" != "file_analysis" && "tax_calculation" != "file_analysis";
    assert "consultation" != "file_analysis" && "custom" != "file_analysis";
    assert "tax_calculation" != "audit_report" && "consultation" != "audit_report" && "custom" != "audit_report";
    assert "consultation" != "tax_calculation" && "custom" != "tax_calculation";
    assert "custom" != "consultation";
  }

  /** A chat task type with its parameter given uses that parameter in its prompt, present
      even when empty; every other type sends the `prompt` parameter as it is, or the default
      request without one. */
  lemma ChatPrompts(taskType: string, sessionId: string, parameters: map<string, string>, year: nat)
    ensures taskType == "audit_report" && "audit_type" in parameters ==>
      BuildCall(taskType, sessionId, parameters, year) == Ok(Chat(AuditPrompt(parameters["audit_type"]), sessionId))
    ensures taskType == "tax_calculation" && "tax_year" in parameters ==>
      BuildCall(taskType, sessionId, parameters, year) == Ok(Chat(TaxPrompt(parameters["tax_year"]), sessionId))
    ensures taskType == "consultation" && "topic" in parameters ==>
      BuildCall(taskType, sessionId, parameters, year) == Ok(Chat(ConsultationPrompt(parameters["topic"]), sessionId))
    ensures taskType !in {"file_analysis", "audit_report", "tax_calculation", "consultation"} ==>
      && ("prompt" in parameters ==> BuildCall(taskType, sessionId, parameters, year) == Ok(Chat(parameters["prompt"], sessionId)))
      && ("prompt" !in parameters ==> BuildCall(taskType, sessionId, parameters, year) == Ok(Chat("Please provide analysis", sessionId)))
  {
    assert "audit_report" != "file_analysis" && "tax_calculation" != "file_analysis" && "consultation" != "file_analysis";
    assert "tax_calculation" != "audit_report" && "consultation" != "audit_report";
    assert "consultation" != "tax_calculation";
  }

  /** The outcome of running a task: the factory may fail to provide an agent, the task may be
      refused before the call, or the agent returns or raises. */
  function Execution(task: Task, factoryError: Option<string>, respond: AgentCall -> CallOutcome, year: nat): (r: Result<string, string>)
    ensures factoryError.Some? ==> r == Err(factoryError.value)
  {
    if factoryError.Some? then Err(factoryError.value)
    else
      match BuildCall(task.taskType, task.sessionId, task.parameters, year)
      case Err(e) => Err(e)
      case Ok(call) =>
        match respond(call)
        case Returned(v) => Ok(v)
        case Raised(m) => Err(m)
  }

  /** A refused file analysis fails with its message whatever the agent would have done. */
  lemma RefusedWithoutCall(task: Task, respond: AgentCall -> CallOutcome, year: nat)
    requires task.taskType == "file_analysis"
    requires !Given(task.parameters, "file_path") || !Given(task.parameters, "file_name")
    ensures Execution(task, None, respond, year) == Err(FileAnalysisMissing)
  {
    var r := BuildCall(task.taskType, task.sessionId, task.parameters, year);
    assert r == Err(FileAnalysisMissing);
  }

  /** An accepted task succeeds exactly when the agent returns, with the agent's result. */
  lemma ExecutionFollowsAgent(task: Task, respond: AgentCall -> CallOutcome, year: nat)
    requires BuildCall(task.taskType, task.sessionId, task.parameters, year).Ok?
    ensures var call := BuildCall(task.taskType, task.sessionId, task.parameters, year).value;
      && (Execution(task, None, respond, year).Ok? <==> respond(call).Returned?)
      && (respond(call).Returned? ==> Execution(task, None, respond, year).value == respond(call).value)
      && (respond(call).Raised? ==> Execution(task, None, respond, year).error == respond(call).message)
  {
  }

  /** The record while its agent works: running, with its start time. */
  function Started(task: Task, now: Time): (t: Task)
    ensures t.status == Running && t.startedAt == Some(now)
    ensures t.(status := task.status, startedAt := task.startedAt) == task
  {
    task.(status := Running, startedAt := Some(now))
  }

  /** The record after a run ends at time `now`: completed with the result, or failed with the
      error; nothing else in it changes. */
  function Finished(task: Task, outcome: Result<string, string>, now: Time): (t: Task)
    ensures t.status == Completed || t.status == Failed
    ensures t.status == Completed <==> outcome.Ok?
    ensures outcome.Ok? ==> t == task.(status := Completed, result := Some(outcome.value), completedAt := Some(now))
    ensures outcome.Err? ==> t == task.(status := Failed, error := Some(outcome.error), failedAt := Some(now))
  {
    match outcome
    case Ok(v) => task.(status := Completed, result := Some(v), completedAt := Some(now))
    case Err(e) => task.(status := Failed, error := Some(e), failedAt := Some(now))
  }

  /** A run never leaves its task waiting or running, and keeps its identity, session and start time. */
  lemma RunEnds(task: Task, factoryError: Option<string>, respond: AgentCall -> CallOutcome, year: nat, now: Time)
    ensures var t := Finished(Started(task, now), Execution(Started(task, now), factoryError, respond, year), now);
      && t.status != Scheduled && t.status != Running
      && t.taskId == task.taskId && t.sessionId == task.sessionId && t.startedAt == Some(now)
      && Execution(Started(task, now), factoryError, respond, year) == Execution(task, factoryError, respond, year)
  {
  }

  // ---------------------------------------------------------------------------
  // Session query

  /** The records of one session, in the given order. */
  function SessionFilter(ts: seq<Task>, sessionId: string): (r: seq<Task>)
    ensures |r| <= |ts|
    ensures forall k :: 0 <= k < |r| ==> r[k].sessionId == sessionId
  {
    if ts == [] then []
    else
      var rest := SessionFilter(ts[..|ts| - 1], sessionId);
      if ts[|ts| - 1].sessionId == sessionId then rest + [ts[|ts| - 1]] else rest
  }

  /** A record is listed exactly when it is one of the given records and belongs to the session. */
  lemma {:induction false} SessionFilterMembers(ts: seq<Task>, sessionId: string)
    ensures forall t :: t in SessionFilter(ts, sessionId) <==> t in ts && t.sessionId == sessionId
  {
    if ts != [] {
      var init := ts[..|ts| - 1];
      SessionFilterMembers(init, sessionId);
      assert ts == init + [ts[|ts| - 1]];
    }
  }

  /** Filtering a concatenation filters each part, keeping the parts in order. */
  lemma {:induction false} SessionFilterAppend(a: seq<Task>, b: seq<Task>, sessionId: string)
    ensures SessionFilter(a + b, sessionId) == SessionFilter(a, sessionId) + SessionFilter(b, sessionId)
  {
    if b != [] {
      var init := b[..|b| - 1];
      SessionFilterAppend(a, init, sessionId);
      assert (a + b)[..|a + b| - 1] == a + init;
    } else {
      assert a + b == a;
    }
  }

  // ---------------------------------------------------------------------------
  // Pending timers under rescheduling

  /** The pending timers after `reschedule_task` as written: the old timer is removed first, and
      the new one is added only when registering it does not raise (`registration` is the
      error it raises, if any). */
  function TimersAfterReschedule(timers: map<string, Time>, taskId: string, runDate: Time,
                                 registration: Option<string>): (r: map<string, Time>)
    requires taskId in timers
    ensures registration.None? ==> r == timers[taskId := runDate]
    ensures registration.Some? ==> taskId !in r && r == timers - {taskId}
  {
    var removed := timers - {taskId};
    if registration.None? then removed[taskId := runDate] else removed
  }

  /** A failed registration leaves a scheduled task without its timer. */
  lemma RescheduleCanDropTimer()
    ensures "t" !in TimersAfterReschedule(map["t" := 5], "t", 9, Some("registration failed"))
  {
  }

  /** The pending timers when the new timer replaces the old one in a single registration: a
      failed registration leaves the old timer in place. */
  function TimersAfterReplace(timers: map<string, Time>, taskId: string, runDate: Time,
                              registration: Option<string>): (r: map<string, Time>)
    requires taskId in timers
    ensures taskId in r
    ensures r.Keys == timers.Keys
    ensures registration.None? ==> r[taskId] == runDate
    ensures registration.Some? ==> r == timers
    ensures forall id :: id in timers && id != taskId ==> r[id] == timers[id]
  {
    if registration.None? then timers[taskId := runDate] else timers
  }

  /** When registration succeeds, both orders of doing it agree. */
  lemma ReplaceAgreesOnSuccess(timers: map<string, Time>, taskId: string, runDate: Time)
    requires taskId in timers
    ensures TimersAfterReplace(timers, taskId, runDate, None) == TimersAfterReschedule(timers, taskId, runDate, None)
  {
    assert (timers - {taskId})[taskId := runDate] == timers[taskId := runDate];
  }
}
