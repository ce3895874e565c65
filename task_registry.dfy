/** `backend/flask_back.py`: the background-task registry behind the HTTP API. The two global dictionaries
    `task_status` and `task_logs` are the fields of one `TaskRegistry`; each request handler is a method
    or a reading function. The clock is an input: `now` is `int(time.time())`, and `clock(i)` is the
    `%H:%M:%S` reading taken by the `i`-th log callback of a run. The thread is not modelled: a background
    task runs as one call. */
module TaskRegistry {
  import opened Common
  import opened Text
  import opened Effects
  import opened SerialListener
  import opened Pipeline

  /** The texts this module prints or raises. */
  const CompletedMessage: string := "Task completed successfully"
  const NotCompletedError: string := "Task not completed yet."
  const NotFoundError: string := "Task not found"
  const StartedMessage: string := "Task started."
  const ErrorLinePrefix: string := "❌ Error: "

  /** The `status` of a running and of a failed task, and the separator of a stamped log line. */
  const RunningStatus: string := "running"
  const ErrorStatus: string := "error"
  const StampSeparator: string := " | "

  /** One `task_status` entry: `{"status": ..., "message": ...}`. */
  datatype TaskStatus = TaskStatus(status: string, message: string)

  /** The JSON bodies the handlers return. */
  datatype Body =
    | Started(taskId: string, status: string)                                  // `{"task_id", "status"}`
    | Failure(error: string)                                                  // `{"error": ...}`
    | Status(entry: TaskStatus)                                               // a `task_status` entry
    | Results(status: string, message: string, detectionResult: string)       // the completed results
    | Logs(logs: seq<string>)                                                 // `{"logs": [...]}`

  /** A response: the HTTP code (200 unless stated) and the body. */
  datatype Response = Response(code: nat, body: Body)

  /** `str(int(time.time()))`: the task id is the decimal clock reading in seconds. */
  function TaskId(now: nat): string {
    Decimal(now)
  }

  /** Two submissions get the same id exactly when they fall in the same second. */
  lemma TaskIdInjective(a: nat, b: nat)
    ensures TaskId(a) == TaskId(b) <==> a == b
  {
    if TaskId(a) == TaskId(b) {
      DecimalInjective(a, b);
    }
  }

  /** The lines the log callback appends for the messages `msgs`, the `i`-th stamped with `clock(i)`. */
  function Stamped(msgs: seq<string>, clock: nat -> string): (lines: seq<string>)
    ensures |lines| == |msgs|
    ensures forall i :: 0 <= i < |msgs| ==> lines[i] == clock(i) + StampSeparator + msgs[i]
  {
    seq(|msgs|, i requires 0 <= i < |msgs| => clock(i) + StampSeparator + msgs[i])
  }

  /** The message a task's outcome leaves in `task_status`: the pipeline's result text, or `"error"` with
      the exception's text. */
  function Terminal(o: Outcome<PipelineResult>): (s: TaskStatus)
    ensures s.status != RunningStatus
    ensures s.status == ErrorStatus <==> o.Raise?
    ensures o.Return? ==> s == TaskStatus(ResultText(o.value), CompletedMessage)
    ensures o.Raise? ==> s.message == o.error
  {
    match o
    case Return(r) => TaskStatus(ResultText(r), CompletedMessage)
    case Raise(e) => TaskStatus(ErrorStatus, e)
  }

  class Registry {
    var taskStatus: map<string, TaskStatus>
    var taskLogs: map<string, seq<string>>

    /** The empty dictionaries at start-up. */
    constructor()
      ensures taskStatus == map[] && taskLogs == map[]
    {
      taskStatus := map[];
      taskLogs := map[];
    }

    /** `GET /task-status/<task_id>`: 404 for an unknown id, else the stored entry. */
    function GetTaskStatus(taskId: string): (r: Response)
      reads this
      ensures r.code == 404 <==> taskId !in taskStatus
      ensures r.code == 404 ==> r.body == Failure(NotFoundError)
      ensures r.code != 404 ==> r == Response(200, Status(taskStatus[taskId]))
    {
      if taskId !in taskStatus then Response(404, Failure(NotFoundError))
      else Response(200, Status(taskStatus[taskId]))
    }

    /** `GET /task-results/<task_id>`: 400 while the id is unknown or still running, 500 with the
        exception's message after an error, else the status repeated as `detection_result`. */
    function GetTaskResults(taskId: string): (r: Response)
      reads this
      ensures r.code == 400 <==> taskId !in taskStatus || taskStatus[taskId].status == RunningStatus
      ensures r.code == 400 ==> r.body == Failure(NotCompletedError)
      ensures r.code == 500 <==> taskId in taskStatus && taskStatus[taskId].status == ErrorStatus
      ensures r.code == 500 ==> r.body == Failure(taskStatus[taskId].message)
      ensures r.code in {200, 400, 500}
      ensures r.code == 200 ==> (r.body.Results? && r.body.detectionResult == r.body.status == taskStatus[taskId].status
                                 && r.body.message == taskStatus[taskId].message)
    {
      if taskId !in taskStatus || taskStatus[taskId].status == RunningStatus then Response(400, Failure(NotCompletedError))
      else
        var result := taskStatus[taskId];
        if result.status == ErrorStatus then Response(500, Failure(result.message))
        else Response(200, Results(result.status, result.message, result.status))
    }

    /** `GET /task-logs/<task_id>`: the task's lines, or an empty list (not an error) for an unknown id. */
    function GetTaskLogs(taskId: string): (r: Response)
      reads this
      ensures r.code == 200
      ensures r.body == Logs(if taskId in taskLogs then taskLogs[taskId] else [])
    {
      if taskId !in taskLogs then Response(200, Logs([])) else Response(200, Logs(taskLogs[taskId]))
    }

    /** `POST /start-detection`: registers the task as running and answers 202 with its id. An id already
        present (a second request in the same second) is overwritten; the logs are left alone. */
    method StartDetection(now: nat) returns (r: Response)
      modifies this
      ensures r == Response(202, Started(TaskId(now), StartedMessage))
      ensures taskStatus == old(taskStatus)[TaskId(now) := TaskStatus(RunningStatus, StartedMessage)]
      ensures taskLogs == old(taskLogs)
      ensures GetTaskStatus(TaskId(now)) == Response(200, Status(TaskStatus(RunningStatus, StartedMessage)))
      ensures GetTaskResults(TaskId(now)) == Response(400, Failure(NotCompletedError))
    {
      var taskId := TaskId(now);
      taskStatus := taskStatus[taskId := TaskStatus(RunningStatus, StartedMessage)];
      r := Response(202, Started(taskId, StartedMessage));
    }

    /** `log_callback(msg)`: appends one stamped line to the task's list. */
    method LogCallback(taskId: string, stamp: string, msg: string)
      requires taskId in taskLogs
      modifies this
      ensures taskLogs == old(taskLogs)[taskId := old(taskLogs)[taskId] + [stamp + StampSeparator + msg]]
      ensures taskStatus == old(taskStatus)
    {
      taskLogs := taskLogs[taskId := taskLogs[taskId] + [stamp + StampSeparator + msg]];
    }

    /** The callback calls of one run, in order: one stamped line per message. */
    method LogMessages(taskId: string, msgs: seq<string>, clock: nat -> string)
      requires taskId in taskLogs
      modifies this
      ensures taskLogs == old(taskLogs)[taskId := old(taskLogs)[taskId] + Stamped(msgs, clock)]
      ensures taskStatus == old(taskStatus)
    {
      ghost var base := taskLogs[taskId];
      assert base + Stamped(msgs[..0], clock) == base;
      assert taskLogs == taskLogs[taskId := base];
      for i := 0 to |msgs|
        invariant taskLogs == old(taskLogs)[taskId := base + Stamped(msgs[..i], clock)]
        invariant taskStatus == old(taskStatus)
      {
        LogCallback(taskId, clock(i), msgs[i]);
        assert Stamped(msgs[..i + 1], clock) == Stamped(msgs[..i], clock) + [clock(i) + StampSeparator + msgs[i]];
        assert base + Stamped(msgs[..i + 1], clock) == base + Stamped(msgs[..i], clock) + [clock(i) + StampSeparator + msgs[i]];
      }
      assert msgs[..|msgs|] == msgs;
    }

    /** The body of `background_task(task_id)` around the call: a fresh log list, one stamped line per
        message the run hands to the callback, then the terminal entry; an exception adds its `❌ Error:`
        line. A run still blocked in its wait (`r == None`) leaves the entry as it was. */
    method RecordRun(taskId: string, r: Option<Outcome<PipelineResult>>, msgs: seq<string>, clock: nat -> string)
      modifies this
      ensures taskLogs == old(taskLogs)[taskId := Stamped(msgs, clock)
                                                + (if r.Some? && r.value.Raise? then [ErrorLinePrefix + r.value.error] else [])]
      ensures taskStatus == (if r.None? then old(taskStatus) else old(taskStatus)[taskId := Terminal(r.value)])
      ensures r.Some? && r.value.Return? ==>
                GetTaskResults(taskId) == Response(200, Results(ResultText(r.value.value), CompletedMessage, ResultText(r.value.value)))
      ensures r.Some? && r.value.Raise? ==> GetTaskResults(taskId) == Response(500, Failure(r.value.error))
    {
      taskLogs := taskLogs[taskId := []];
      LogMessages(taskId, msgs, clock);
      AppendEmpty(Stamped(msgs, clock));
      if r.None? {
        return;
      }
      match r.value
      case Return(result) =>
        taskStatus := taskStatus[taskId := TaskStatus(ResultText(result), CompletedMessage)];
      case Raise(e) =>
        taskStatus := taskStatus[taskId := TaskStatus(ErrorStatus, e)];
        taskLogs := taskLogs[taskId := taskLogs[taskId] + [ErrorLinePrefix + e]];
      TerminalResults(taskId, r.value);
    }

    /** What `/task-results` answers once a task has ended: 200 with the result text repeated, or 500 with
        the exception's message. */
    lemma TerminalResults(taskId: string, o: Outcome<PipelineResult>)
      requires taskId in taskStatus && taskStatus[taskId] == Terminal(o)
      ensures o.Return? ==> GetTaskResults(taskId) == Response(200, Results(ResultText(o.value), CompletedMessage, ResultText(o.value)))
      ensures o.Raise? ==> GetTaskResults(taskId) == Response(500, Failure(o.error))
    {
    }

    /** `background_task(task_id)`: runs `wait_and_run_pipeline` with the registry's log callback. */
    method BackgroundTask<E>(taskId: string, p: Predictor<E>, s: Session, env: RunEnv, fmt: real -> string, clock: nat -> string)
      modifies this
      ensures var (r, trace) := WaitAndRun(p, s, env, fmt);
              && taskLogs == old(taskLogs)[taskId := Stamped(Notes(trace), clock)
                                                  + (if r.Some? && r.value.Raise? then [ErrorLinePrefix + r.value.error] else [])]
              && taskStatus == (if r.None? then old(taskStatus) else old(taskStatus)[taskId := Terminal(r.value)])
    {
      var run := WaitAndRun(p, s, env, fmt);
      RecordRun(taskId, run.0, Notes(run.1), clock);
    }
  }
}
