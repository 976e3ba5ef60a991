/** The task manager: task status objects in a dictionary, the browser controllers of running
    tasks and the id counter, all updated in place. Each method is proved against the transitions
    of `TaskRegistry`. */
module Tasks {
  import opened Wrappers
  import opened TaskRegistry
  import ScriptExecutor
  import ScriptTranslation
  import Browser

  /** A browser controller as the task manager creates it; `debugMode == None` when it is left to
      the controller's default. */
  datatype Controller = Controller(headless: bool, debugMode: Option<bool>)

  /** The keys of the `config` dictionary `execute_task` reads; `None` when a key is absent. */
  datatype Config = Config(
    headless: Option<bool>,
    debugMode: Option<bool>,
    periodic: Option<bool>,
    period: Option<real>,
    maxRetries: Option<int>,
    stopOnError: Option<bool>)

  /** `get_agent` of a controller: an agent, or the message of the exception it raises. */
  type AgentSource = Controller -> Result<ScriptExecutor.Agent, string>

  /** The controller `execute_task` uses: the task's own one, or a new one from the config. */
  function ControllerFor(browsers: map<string, Controller>, id: string, config: Config): (c: Controller)
    ensures id in browsers ==> c == browsers[id]
    ensures id !in browsers ==> c.headless == config.headless.GetOr(true) && c.debugMode == Some(config.debugMode.GetOr(false))
  {
    if id in browsers then browsers[id]
    else Controller(config.headless.GetOr(true), Some(config.debugMode.GetOr(false)))
  }

  /** What the body of `execute_task` arrives at: the executor's result, or the message of the
      exception that ended it (from `get_agent` or from translating the script). */
  function TaskRun(script: Browser.AutomationScript, controller: Controller, getAgent: AgentSource,
                   config: Config, waits: nat): Result<ScriptExecutor.ExecutionResult, string>
  {
    match getAgent(controller)
    case Failure(e) => Failure(e)
    case Success(agent) =>
      var translated := ScriptTranslation.ScriptTasks(script.steps, ScriptTranslation.VariablesOf(script));
      match translated
      case Failure(e) => Failure(e)
      case Success(tasks) =>
        Success(ScriptExecutor.Execution(script.name, tasks, agent,
          config.periodic.GetOr(false), config.period.GetOr(60.0), config.maxRetries.GetOr(3),
          config.stopOnError.GetOr(true), waits))
  }

  /** The status update `execute_task` makes once the body is over. */
  function Settle(reg: Registry, id: string, run: Result<ScriptExecutor.ExecutionResult, string>, now: real): Registry
  {
    match run
    case Success(x) =>
      if x.status == ScriptExecutor.Completed then Complete(reg, id, x, now) else Fail(reg, id, "Unknown error", now)
    case Failure(e) => Fail(reg, id, e, now)
  }

  /** `execute_task` completes the task exactly when the executor reports `"completed"`; a
      cancelled execution fails it with "Unknown error", since its result holds no error, and an
      exception fails it with the exception's message. */
  lemma SettleRouting(reg: Registry, id: string, run: Result<ScriptExecutor.ExecutionResult, string>, now: real)
    requires id in reg
    ensures var r := Settle(reg, id, run, now);
      && r.Keys == reg.Keys
      && (r[id].status == Completed <==> run.Success? && run.value.status == ScriptExecutor.Completed)
      && (r[id].status == Completed ==> r[id].result == Some(run.value))
      && (r[id].status != Completed ==>
            r[id].status == Failed && r[id].error == Some(if run.Failure? then run.error else "Unknown error"))
      && r[id].endTime == Some(now)
      && forall other :: other in reg && other != id ==> r[other] == reg[other]
  {
    FinishSpec(reg, id, if run.Success? then run.value else ScriptExecutor.ExecutionResult("", [], false, None, 0, 0, 0, ScriptExecutor.Completed),
      if run.Failure? then run.error else "Unknown error", now);
  }

  /** A task marked cancelled by `cancel_task` while its execution runs does not stay cancelled
      once that execution returns a cancelled result: `execute_task` then marks the task failed.
      `cancel_task` itself only rewrites the status; the execution returns a cancelled result only
      when the asyncio task running it is cancelled, by code outside the task manager. */
  lemma CancelledRunFails(reg: Registry, id: string, x: ScriptExecutor.ExecutionResult, now: real, later: real)
    requires id in reg && reg[id].status == Running && x.status == ScriptExecutor.Cancelled
    ensures Cancel(reg, id, now).1
    ensures Settle(Cancel(reg, id, now).0, id, Success(x), later)[id].status == Failed
  {
  }

  /** An unsupported action makes `execute_task` fail the task with the translation's message,
      "Unsupported action type: <kind>" for the first unsupported action, whatever the agent
      would have done. */
  lemma UnsupportedActionFails(script: Browser.AutomationScript, controller: Controller, getAgent: AgentSource,
                               config: Config, waits: nat)
    requires getAgent(controller).Success?
    requires exists i, j ::
      0 <= i < |script.steps| && 0 <= j < |script.steps[i].actions| && Browser.KindOf(script.steps[i].actions[j].actionType).None?
    ensures exists i, j ::
      && ScriptTranslation.FirstUnsupported(script.steps, i, j)
      && TaskRun(script, controller, getAgent, config, waits) ==
           Failure("Unsupported action type: " + script.steps[i].actions[j].actionType)
  {
    ScriptTranslation.FirstUnsupportedExists(script.steps);
    var i, j :| ScriptTranslation.FirstUnsupported(script.steps, i, j);
    ScriptTranslation.ScriptTasksError(script.steps, ScriptTranslation.VariablesOf(script), i, j);
  }

  /** Each record of `tasks` carries the id it is filed under. */
  ghost predicate Keyed(tasks: map<string, TaskStatus>)
  {
    forall id :: id in tasks ==> tasks[id].taskId == id
  }

  /** One task's status record (`TaskStatus`), updated in place by the manager. */
  class TaskStatus {
    const taskId: string
    var status: TaskState
    var startTime: real
    var endTime: Option<real>
    var result: Option<ScriptExecutor.ExecutionResult>
    var error: Option<string>
    var logs: seq<string>

    /** The record `register_task` creates. */
    constructor (taskId: string, now: real)
      ensures Value() == NewRecord(taskId, now)
    {
      this.taskId := taskId;
      status := Running;
      startTime := now;
      endTime := None;
      result := None;
      error := None;
      logs := [];
    }

    /** The record's current contents. */
    function Value(): Record
      reads this
    {
      Record(taskId, status, startTime, endTime, result, error, logs)
    }
  }

  /** `TaskManager`: the task dictionary, the active browser controllers and the id counter. */
  class TaskManager {
    var tasks: map<string, TaskStatus>
    var activeBrowsers: map<string, Controller>
    var taskCounter: int

    /** Every record sits under its own id, so distinct ids hold distinct records. */
    ghost predicate Valid()
      reads this
    {
      Keyed(tasks)
    }

    /** The registry the dictionary holds. */
    ghost function Records(): Registry
      reads this, tasks.Values
    {
      map id | id in tasks :: tasks[id].Value()
    }

    constructor ()
      ensures Valid() && Records() == map[] && activeBrowsers == map[] && taskCounter == 0
    {
      tasks := map[];
      activeBrowsers := map[];
      taskCounter := 0;
    }

    /** `generate_task_id` at time `now`: counts one more task and builds its id. */
    method GenerateTaskId(now: real) returns (id: string)
      modifies this
      ensures taskCounter == old(taskCounter) + 1
      ensures id == TaskId(Trunc(now), taskCounter)
      ensures tasks == old(tasks) && activeBrowsers == old(activeBrowsers)
    {
      taskCounter := taskCounter + 1;
      id := TaskId(Trunc(now), taskCounter);
    }

    /** `register_task` at time `now`: a fresh running record under `id`, replacing any earlier one. */
    method RegisterTask(id: string, now: real)
      requires Valid()
      modifies this
      ensures Valid() && Records() == Register(old(Records()), id, now)
      ensures id in tasks && fresh(tasks[id])
      ensures activeBrowsers == old(activeBrowsers) && taskCounter == old(taskCounter)
    {
      var t := new TaskStatus(id, now);
      tasks := tasks[id := t];
      assert forall k :: k in tasks && k != id ==> tasks[k] == old(tasks[k]);
    }

    /** The records `complete_task`, `fail_task`, `cancel_task` and `add_log` may change. */
    ghost function Entry(id: string): set<TaskStatus>
      reads this
    {
      if id in tasks then {tasks[id]} else {}
    }

    /** `complete_task` at time `now`. */
    method CompleteTask(id: string, result: ScriptExecutor.ExecutionResult, now: real)
      requires Valid()
      modifies Entry(id)
      ensures Valid() && Records() == Complete(old(Records()), id, result, now)
    {
      if id in tasks {
        tasks[id].status := Completed;
        tasks[id].endTime := Some(now);
        tasks[id].result := Some(result);
      }
    }

    /** `fail_task` at time `now`. */
    method FailTask(id: string, error: string, now: real)
      requires Valid()
      modifies Entry(id)
      ensures Valid() && Records() == Fail(old(Records()), id, error, now)
    {
      if id in tasks {
        tasks[id].status := Failed;
        tasks[id].endTime := Some(now);
        tasks[id].error := Some(error);
      }
    }

    /** `cancel_task` at time `now`. */
    method CancelTask(id: string, now: real) returns (ok: bool)
      requires Valid()
      modifies Entry(id)
      ensures Valid() && (Records(), ok) == Cancel(old(Records()), id, now)
    {
      if id in tasks && tasks[id].status == Running {
        tasks[id].status := Cancelled;
        tasks[id].endTime := Some(now);
        ok := true;
        assert Records() == old(Records())[id := old(Records())[id].(status := Cancelled, endTime := Some(now))];
      } else {
        ok := false;
      }
    }

    /** `get_task_status`: the record object under `id`, if any. */
    function GetTaskStatus(id: string): (t: Option<TaskStatus>)
      requires Valid()
      reads this, tasks.Values
      ensures t.Some? <==> id in Records()
      ensures t.Some? ==> t.value.Value() == Records()[id] && t.value.taskId == id
    {
      if id in tasks then Some(tasks[id]) else None
    }

    /** `get_all_tasks`: every record object once. */
    method GetAllTasks() returns (all: seq<TaskStatus>)
      requires Valid()
      ensures |all| == |tasks|
      ensures forall t :: t in all <==> t in tasks.Values
      ensures forall i, j :: 0 <= i < j < |all| ==> all[i] != all[j]
    {
      all := [];
      var left := tasks.Keys;
      while left != {}
        invariant left <= tasks.Keys
        invariant |all| + |left| == |tasks|
        invariant forall t :: t in all <==> exists k :: k in tasks.Keys - left && tasks[k] == t
        invariant forall i :: 0 <= i < |all| ==> all[i].taskId !in left
        invariant forall i, j :: 0 <= i < j < |all| ==> all[i] != all[j]
        decreases |left|
      {
        var k :| k in left;
        all := all + [tasks[k]];
        left := left - {k};
      }
    }

    /** `add_log`: appends "<stamp>: <message>", `stamp` being the caller's ISO time stamp. */
    method AddLog(id: string, stamp: string, message: string)
      requires Valid()
      modifies Entry(id)
      ensures Valid() && Records() == TaskRegistry.AddLog(old(Records()), id, stamp, message)
    {
      if id in tasks {
        tasks[id].logs := tasks[id].logs + [stamp + ": " + message];
      }
    }

    /** `clear_history`: keeps the running tasks only. */
    method ClearHistory()
      requires Valid()
      modifies this
      ensures Valid() && Records() == TaskRegistry.ClearHistory(old(Records()))
      ensures forall id :: id in tasks ==> id in old(tasks) && tasks[id] == old(tasks[id])
      ensures activeBrowsers == old(activeBrowsers) && taskCounter == old(taskCounter)
    {
      tasks := map id | id in tasks && tasks[id].status == Running :: tasks[id];
    }

    /** `start_browser`: a controller for `id` unless it has one already. */
    method StartBrowser(id: string, headless: bool)
      modifies this
      ensures activeBrowsers == if id in old(activeBrowsers) then old(activeBrowsers)
        else old(activeBrowsers)[id := Controller(headless, None)]
      ensures tasks == old(tasks) && taskCounter == old(taskCounter) && Records() == old(Records())
    {
      if id !in activeBrowsers {
        activeBrowsers := activeBrowsers[id := Controller(headless, None)];
      }
    }

    /** `stop_browser`: drops the controller of `id`, if any. */
    method StopBrowser(id: string)
      modifies this
      ensures activeBrowsers == old(activeBrowsers) - {id}
      ensures tasks == old(tasks) && taskCounter == old(taskCounter) && Records() == old(Records())
    {
      if id in activeBrowsers {
        activeBrowsers := activeBrowsers - {id};
      }
    }

    /** `get_browser_status` */
    function GetBrowserStatus(id: string): (s: string)
      reads this
      ensures s == "running" <==> id in activeBrowsers
      ensures s != "running" ==> s == "stopped"
    {
      if id in activeBrowsers then "running" else "stopped"
    }

    /** The `complete_task` or `fail_task` call that ends `execute_task`. */
    method SettleTask(id: string, run: Result<ScriptExecutor.ExecutionResult, string>, now: real)
      requires Valid()
      modifies Entry(id)
      ensures Valid() && Records() == Settle(old(Records()), id, run, now)
    {
      match run {
        case Success(x) =>
          if x.status == ScriptExecutor.Completed {
            CompleteTask(id, x, now);
          } else {
            FailTask(id, "Unknown error", now);
          }
        case Failure(e) =>
          FailTask(id, e, now);
      }
    }

    /** `execute_task` at end time `now`: runs the script with the task's controller, records the
      outcome and always drops the controller, as `stop_browser` does (its `finally` clause
      calls `cleanup` where `stop_browser` calls `stop`). `waits` is passed on to the executor. */
    method ExecuteTask(id: string, script: Browser.AutomationScript, config: Config, getAgent: AgentSource,
                       waits: nat, now: real)
      requires Valid()
      modifies this, Entry(id)
      ensures Valid()
      ensures Records() == Settle(old(Records()), id,
        TaskRun(script, ControllerFor(old(activeBrowsers), id, config), getAgent, config, waits), now)
      ensures tasks == old(tasks) && taskCounter == old(taskCounter)
      ensures activeBrowsers == old(activeBrowsers) - {id}
    {
      var controller := AcquireController(id, config);
      var run := Run(script, controller, getAgent, config, waits);
      Finish(id, run, now);
    }

    /** The end of `execute_task`: records the outcome, then drops the task's controller. */
    method Finish(id: string, run: Result<ScriptExecutor.ExecutionResult, string>, now: real)
      requires Valid()
      modifies this, Entry(id)
      ensures Valid() && Records() == Settle(old(Records()), id, run, now)
      ensures tasks == old(tasks) && taskCounter == old(taskCounter)
      ensures activeBrowsers == old(activeBrowsers) - {id}
    {
      SettleTask(id, run, now);
      ghost var settled := Records();
      StopBrowser(id);
      assert Records() == settled;
    }

    /** The first statements of `execute_task`: the task's controller, created from the config
        when it has none. */
    method AcquireController(id: string, config: Config) returns (c: Controller)
      modifies this
      ensures c == ControllerFor(old(activeBrowsers), id, config) && activeBrowsers == old(activeBrowsers)[id := c]
      ensures tasks == old(tasks) && taskCounter == old(taskCounter) && Records() == old(Records())
    {
      if id !in activeBrowsers {
        activeBrowsers := activeBrowsers[id := Controller(config.headless.GetOr(true), Some(config.debugMode.GetOr(false)))];
      }
      c := activeBrowsers[id];
    }
  }

  /** The `try` body of `execute_task` after the controller is chosen. */
  method Run(script: Browser.AutomationScript, controller: Controller, getAgent: AgentSource, config: Config, waits: nat)
    returns (run: Result<ScriptExecutor.ExecutionResult, string>)
    ensures run == TaskRun(script, controller, getAgent, config, waits)
  {
    var agent := getAgent(controller);
    if agent.Failure? {
      return Failure(agent.error);
    }
    run := ScriptExecutor.ExecuteScript(script, agent.value, config.periodic.GetOr(false), config.period.GetOr(60.0),
      config.maxRetries.GetOr(3), config.stopOnError.GetOr(true), waits);
  }
}
