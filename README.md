# browser-api: script execution, task registry and model selection

This project is a Dafny model of the core of browser-api, a service that drives a browser-automation
agent. It covers five pieces.

1. **Script translation** (`ScriptTranslation`).
   - A structured automation script has steps, actions, optional validation dictionaries and `${name}` variables.
   - It becomes the ordered list of natural-language instructions that is handed to the agent.
2. **Script execution** (`ScriptExecutor`).
   - Each instruction is dispatched with bounded retries.
   - A run can stop early on error.
   - Periodic repetition keeps run counters and a run history.
3. **The task manager** (`TaskRegistry`, `Tasks`).
   - Task status objects live in a dictionary and are updated in place.
   - The manager also holds the browser controllers of running tasks and an id counter.
   - `Tasks.TaskManager` is a class with `map` fields. Each method that changes task records is proved against a pure transition of `TaskRegistry`, and the properties are proved about those transitions.
   - `StartBrowser`, `StopBrowser`, `GetBrowserStatus`, `GetAllTasks` and `AcquireController` are specified directly against map expressions over the controllers and status objects.
4. **Language-model configuration** (`Llm`).
   - A model name selects one of three configuration classes.
   - A configuration determines the keyword arguments passed to its chat-model constructor.
5. **The two example scripts** (`Examples`).
   - The login form and the Google search, with the exact instruction lists each translates into.

`Wrappers`, `Format` and `Strings` hold the supporting definitions:
- `Option` and `Result`.
- Python's printing of integers and `None`.
- `str.replace`, `startswith`, `in` on strings and ASCII `lower()`.

The agent is a function from a call number and an instruction to an answer: a result, an exception's
text, or a cancellation. Clocks are parameters:
- `now`: a `time.time()` value;
- `stamp`: an ISO time text;
- `waits`: the number of period sleeps that finish before the caller cancels a periodic execution.

Behaviour of the code worth noting:
- **Validation instruction.** A step's validation instruction is emitted after every action of the step. It is not emitted once per step, because the test sits inside the per-action loop.
- **Substitution.**
  - It happens once, before execution, not again for each periodic run.
  - It goes variable by variable in dictionary order, so one variable's value can feed a later variable's placeholder.
  - It is therefore not idempotent in general: see `Examples.UserNameMentioningPassword`.
- **Terminal states are not final.**
  - `complete_task` and `fail_task` overwrite any status, `cancelled` included: see `TaskRegistry.CompleteAfterCancel`.
  - `register_task` overwrites an existing record.
  - Only `cancel_task` checks for `running`.
- **Cancellation of a running task.**
  - `cancel_task` only rewrites the status to `cancelled`. It does not interrupt the execution.
  - A `CancelledError` reaches `execute_script` (handlers/scriptexecutor.py:175) only when the asyncio task running the execution is itself cancelled. No code of the task manager does that.
  - When it happens, `execute_script` returns status `cancelled`, with the partial run discarded (see `ScriptExecutor.SingleExecution`: a cancelled execution has no runs, and only an agent call answering `Cancels` cancels it).
  - `execute_task` then calls `fail_task` with "Unknown error", so even a task that `cancel_task` marked cancelled ends up failed (see `Tasks.CancelledRunFails`).
- **A failure under `stop_on_error`.** A periodic loop that ends this way reports status `completed`, not an error status (see `ScriptExecutor.PeriodicStopsOnError`).

## Model

| member | source | states |
|---|---|---|
| Browser.KindOf | models/browser.py:5-12 | a kind is recognised exactly when its string is one of the seven enum values, and then it is the kind with that value |
| ScriptTranslation.ActionToTask | handlers/scriptexecutor.py:16-35 | translation fails exactly for an unrecognised kind, with "Unsupported action type: <kind>"; otherwise it yields the instruction of the action's kind |
| ScriptTranslation.ScrollToBottom | handlers/scriptexecutor.py:26-29 | a scroll becomes "Scroll to bottom of page" exactly when it has no non-empty coordinate dictionary |
| ScriptTranslation.InstructionNamesKind | handlers/scriptexecutor.py:16-35 | every instruction announces its action's own kind in its opening words, so distinct kinds never translate to the same instruction |
| ScriptTranslation.SubstituteAction | handlers/scriptexecutor.py:47-49 | only a present, non-empty value is rewritten, by substituting every variable; no other field changes |
| ScriptTranslation.SubstituteWithoutPlaceholders | handlers/scriptexecutor.py:42-49 | a value that mentions none of the variables' placeholders is unchanged; in particular absent or empty variables change nothing |
| ScriptTranslation.PlaceholdersApart | handlers/scriptexecutor.py:49 | occurrences of the placeholders of two distinct names without `$`, `{` or `}` never overlap |
| ScriptTranslation.SubstituteKeepsUnknown | handlers/scriptexecutor.py:47-49 | a placeholder of a name that is not a variable survives substitution, even in a value that also holds variables' placeholders, when no name has `$`, `{` or `}` |
| Strings.ReplaceKeeps | handlers/scriptexecutor.py:49 | an occurrence of a text that no occurrence of the pattern overlaps survives `str.replace` |
| Examples.UnknownPlaceholderKept | handlers/scriptexecutor.py:47-49 | substituting `user` in "${user} ${code}" keeps `${code}` |
| ScriptTranslation.SubstituteIdentity | handlers/scriptexecutor.py:48-49 | substituting each variable by its own placeholder is the identity |
| Strings.ReplaceFirst | handlers/scriptexecutor.py:49 | `replace` puts the replacement in place of the leftmost occurrence, keeps the text before it, and carries on after the occurrence |
| Strings.ReplaceAbsent | handlers/scriptexecutor.py:49 | replacing a pattern that does not occur leaves the text unchanged |
| ScriptTranslation.ValidationTask | handlers/scriptexecutor.py:55-66 | a validation instruction exists exactly when there is a validation dictionary of type element_exists, text_contains or url_changed, and it always ends with that dictionary's timeout |
| ScriptTranslation.DefaultTimeout | handlers/scriptexecutor.py:58 | a validation without a "timeout" entry waits "(timeout: 5000ms)" |
| ScriptTranslation.AssembleLayout | handlers/scriptexecutor.py:45-66 | within a step, action j's instruction is at position j with no validation; with a validation it is at 2j, followed by the validation instruction at 2j+1 |
| ScriptTranslation.StepTasksSize | handlers/scriptexecutor.py:45-66 | a step yields one instruction per action, or two per action when its validation yields one |
| ScriptTranslation.ScriptTasksLength | handlers/scriptexecutor.py:44-68 | the instruction count is the number of actions plus the number of actions in steps whose validation yields an instruction |
| ScriptTranslation.ScriptTasksStepSlice | handlers/scriptexecutor.py:44-68 | document order: step i's instructions are exactly the slice between its offset and the next step's offset |
| ScriptTranslation.ScriptTasksFailure | handlers/scriptexecutor.py:37-52 | translating a script fails exactly when some action of some step has an unsupported kind |
| ScriptTranslation.FirstUnsupportedExists | handlers/scriptexecutor.py:44-51 | a script with an unsupported action has a first one in document order (step by step, action by action) |
| ScriptTranslation.ScriptTasksError | handlers/scriptexecutor.py:35-51 | a failed translation carries "Unsupported action type: <kind>" of the first unsupported action in document order |
| ScriptTranslation.SubstituteValue | handlers/scriptexecutor.py:48-49 | the loop over the variables computes the sequential substitution of all of them |
| ScriptTranslation.RewriteAction | handlers/scriptexecutor.py:47-49 | the in-place rewrite of one action gives the substituted action |
| ScriptTranslation.StepToTasks | handlers/scriptexecutor.py:45-66 | the per-action loop yields the step's instruction list, or the first unsupported action's error, and on success leaves the step's actions substituted |
| ScriptTranslation.ScriptToTasks | handlers/scriptexecutor.py:37-68 | `script_to_tasks` yields the concatenated instruction lists of the steps in order, or the first error, and on success leaves the script's values substituted |
| ScriptExecutor.TryTaskBounds | handlers/scriptexecutor.py:113-134 | an instruction is tried at most max_retries times, one agent call per attempt; it is recorded as failed only at attempt max_retries; a success is recorded at the first attempt that returned, after earlier attempts raised; the entry holds what the agent answered |
| ScriptExecutor.TryTaskExhausts | handlers/scriptexecutor.py:113-134 | an instruction on which every attempt raises is recorded as failed with the last error after exactly max_retries calls |
| ScriptExecutor.RunWellFormed | handlers/scriptexecutor.py:107-151 | entry k of a finished run belongs to instruction k, within the retry bound, and the run succeeds exactly when no entry failed; with max_retries <= 0 nothing is recorded and the agent is never called |
| ScriptExecutor.RunStopsOnError | handlers/scriptexecutor.py:127-151 | under stop_on_error only the last entry can be a failure, and a failed run ends with it and carries "Failed after <max_retries> attempts: <error>"; otherwise no run carries an error |
| ScriptExecutor.RunCoversAll | handlers/scriptexecutor.py:112-151 | with max_retries >= 1, every instruction gets exactly one entry unless the run stopped on error: so every successful run, and every run without stop_on_error, covers all instructions |
| ScriptExecutor.TryFinishes | handlers/scriptexecutor.py:113-144 | retrying an instruction ends with an outcome when the agent never answers with a cancellation |
| ScriptExecutor.TryCancelledBy | handlers/scriptexecutor.py:113-144 | retrying an instruction is cancelled only when some agent call for it answered with a cancellation |
| ScriptExecutor.RunFinishes | handlers/scriptexecutor.py:107-151 | a run finishes when the agent never answers with a cancellation |
| ScriptExecutor.RunCancelledBy | handlers/scriptexecutor.py:107-151 | a run is cancelled only when some agent call for one of its instructions answered with a cancellation |
| ScriptExecutor.RunAnswered | handlers/scriptexecutor.py:112-143 | a finished run uses exactly as many agent calls as its entries record attempts, and each entry records what the agent answered from the call after the previous entry's attempts |
| ScriptExecutor.AnsweredEach | handlers/scriptexecutor.py:112-143 | the chained reading of a run's entries gives, for each entry k, the answers from the call after the attempts of entries 0..k-1 |
| ScriptExecutor.RunRecordsAnswers | handlers/scriptexecutor.py:107-151 | for a finished run from call `call`: it ends at `call` plus the sum of its entries' attempts, and entry k records the agent's answers from `call` plus the attempts of the entries before it |
| ScriptExecutor.AlwaysFailingRun | handlers/scriptexecutor.py:112-143 | with an agent that always raises, a stop-on-error run records one failure for the first instruction and makes max_retries calls |
| ScriptExecutor.RetryTask | handlers/scriptexecutor.py:113-144 | the retry loop of one instruction computes the outcome `TryTaskBounds` describes |
| ScriptExecutor.RunOnce | handlers/scriptexecutor.py:107-151 | `run_once`'s loops compute the run that the properties above describe |
| ScriptExecutor.SingleExecution | handlers/scriptexecutor.py:168-173 | a one-off execution has exactly one run (none if cancelled, which only an agent call answering with a cancellation causes), counts it, and reports completed even when that run failed |
| ScriptExecutor.SingleCompletes | handlers/scriptexecutor.py:168-183 | when the agent never cancels, a one-off execution has total_runs 1, its run is `run_once` from the first call, and its status is completed |
| ScriptExecutor.PeriodicStopsOnError | handlers/scriptexecutor.py:154-167 | under stop_on_error every periodic run but the last succeeded; the loop ends without cancellation exactly when its last run failed under stop_on_error; without it the loop ends only by cancellation |
| ScriptExecutor.PeriodicRunsAll | handlers/scriptexecutor.py:154-167 | when the agent never cancels, the loop makes one run more than the period sleeps that finish, unless a failed run under stop_on_error ends it first without cancellation |
| ScriptExecutor.PeriodicStarts | handlers/scriptexecutor.py:154-167 | there is one start call number per periodic run, the first being the loop's starting call |
| ScriptExecutor.PeriodicRunsAreRuns | handlers/scriptexecutor.py:155-162 | run k of the periodic history is the run of `run_once` from start call k, the first starting at the loop's first call, and it ends where run k+1 starts |
| ScriptExecutor.ExecutionCounts | handlers/scriptexecutor.py:154-173 | total_runs equals the length of the history and successful_runs plus failed_runs; successful_runs counts the successful runs; periodic with stop_on_error fails at most one run |
| ScriptExecutor.RunPeriodically | handlers/scriptexecutor.py:154-167 | the `while True` loop builds the periodic history and keeps the three counters in step with it |
| ScriptExecutor.RunSingle | handlers/scriptexecutor.py:168-173 | the non-periodic branch records its one run and sets the counters from its success |
| ScriptExecutor.RunScript | handlers/scriptexecutor.py:153-183 | the branch on `periodic` gives the execution result with name, history, period (only when periodic), counters and status |
| ScriptExecutor.ExecuteScript | handlers/scriptexecutor.py:95-186 | an unsupported action fails the execution with its error before any agent call; otherwise the result is the execution of the translated instructions |
| TaskRegistry.Trunc | handlers/taskmanager.py:32 | `int()` of a time truncates toward zero |
| TaskRegistry.TaskIdInjective | handlers/taskmanager.py:30-32 | equal task ids come from equal times and equal counters, so distinct counters give distinct ids |
| TaskRegistry.RegisterSpec | handlers/taskmanager.py:34-40 | a registered task is running, started now, with no end time, result or error and no logs; it replaces any earlier record and leaves every other record alone |
| TaskRegistry.CancelSpec | handlers/taskmanager.py:92-97 | cancel succeeds exactly on a running task, then marks it cancelled with an end time; on failure nothing changes |
| TaskRegistry.CancelTwice | handlers/taskmanager.py:92-97 | a second cancel of the same task fails and changes nothing |
| TaskRegistry.FinishSpec | handlers/taskmanager.py:80-90 | complete and fail ignore unknown ids; on a known id they set the status, end time and result or error whatever the old status; other records are unaffected |
| TaskRegistry.CompleteAfterCancel | handlers/taskmanager.py:80-97 | a cancelled task that is later completed ends up completed |
| TaskRegistry.AddLogSpec | handlers/taskmanager.py:105-107 | add_log appends exactly one "<stamp>: <message>" entry to a known task's logs and changes nothing else; it ignores unknown ids |
| TaskRegistry.ClearHistorySpec | handlers/taskmanager.py:123-128 | clearing keeps exactly the running tasks with their records unchanged, and clearing twice is clearing once |
| Tasks.ControllerFor | handlers/taskmanager.py:46-52 | execute_task uses the task's existing controller, or a new one with headless defaulting to true and debug mode defaulting to false |
| Tasks.SettleRouting | handlers/taskmanager.py:66-73 | the task ends completed, with the execution result, exactly when the executor reports completed; otherwise it fails with the exception's message or "Unknown error"; the end time is now and other tasks are untouched |
| Tasks.CancelledRunFails | handlers/taskmanager.py:66-70 | a running task that cancel_task marks cancelled ends up failed if its execution then returns a cancelled result |
| Tasks.UnsupportedActionFails | handlers/taskmanager.py:53-73 | a script with an unsupported action ends in failure whatever the agent does, with "Unsupported action type: <kind>" for the first unsupported action in document order |
| Tasks.TaskStatus.constructor | handlers/taskmanager.py:11-20 | a new status object holds the record register_task creates |
| Tasks.TaskManager.constructor | handlers/taskmanager.py:24-28 | a new manager has no tasks and no controllers, and its counter is 0 |
| Tasks.TaskManager.GenerateTaskId | handlers/taskmanager.py:30-32 | the counter goes up by exactly one and the id is "task_<int(now)>_<counter>"; nothing else changes |
| Tasks.TaskManager.RegisterTask | handlers/taskmanager.py:34-40 | the records become `Register` of the old ones, under a fresh status object |
| Tasks.TaskManager.CompleteTask | handlers/taskmanager.py:80-84 | the records become `Complete` of the old ones; only the task's own object may change |
| Tasks.TaskManager.FailTask | handlers/taskmanager.py:86-90 | the records become `Fail` of the old ones; only the task's own object may change |
| Tasks.TaskManager.CancelTask | handlers/taskmanager.py:92-97 | the records and the returned flag are `Cancel` of the old records |
| Tasks.TaskManager.GetTaskStatus | handlers/taskmanager.py:99-100 | returns an object exactly for a known id, and it is the object holding that id's record |
| Tasks.TaskManager.GetAllTasks | handlers/taskmanager.py:102-103 | returns each status object of the dictionary exactly once |
| Tasks.TaskManager.AddLog | handlers/taskmanager.py:105-107 | the records become `AddLog` of the old ones; only the task's own object may change |
| Tasks.TaskManager.ClearHistory | handlers/taskmanager.py:123-128 | the records become `ClearHistory` of the old ones, keeping the surviving objects themselves |
| Tasks.TaskManager.StartBrowser | handlers/taskmanager.py:109-113 | adds a headless-as-given controller only when the task has none; the task records are untouched |
| Tasks.TaskManager.StopBrowser | handlers/taskmanager.py:115-118 | removes the task's controller if present; the task records are untouched |
| Tasks.TaskManager.GetBrowserStatus | handlers/taskmanager.py:120-121 | "running" exactly when the task has a controller, "stopped" otherwise |
| Tasks.TaskManager.SettleTask | handlers/taskmanager.py:66-73 | the complete_task or fail_task call at the end of execute_task makes the records `Settle` of the old ones |
| Tasks.TaskManager.AcquireController | handlers/taskmanager.py:46-52 | the task's controller is the one `ControllerFor` picks, and it is stored under the task id |
| Tasks.TaskManager.Finish | handlers/taskmanager.py:66-78 | records the outcome, then removes the task's controller |
| Tasks.TaskManager.ExecuteTask | handlers/taskmanager.py:42-78 | the task's record is settled with the outcome of running the script with the chosen controller and the config's defaults; the controller is removed on every path |
| Tasks.Run | handlers/taskmanager.py:53-64 | asks the controller for an agent and runs the script with the config's values or the defaults false, 60.0, 3 and true |
| Llm.GeminiConfig | models/llm.py:14-19 | a Gemini configuration converts system messages and has top_k 32 and max_output_tokens 2048 by default |
| Llm.AnthropicConfig | models/llm.py:42-44 | an Anthropic configuration has no max_tokens by default |
| Llm.CreateLlmConfig | models/llm.py:52-68 | a chosen configuration keeps the model name and key; a refusal reads "Unsupported model: <name>" |
| Llm.DecisionTable | models/llm.py:52-68 | each configuration is chosen exactly when its test holds and all earlier tests fail; the name is refused exactly when all four fail |
| Llm.ClaudeAnyCase | models/llm.py:58-59 | a name mentioning "claude" in any mix of cases, and starting with neither "gemini" nor "gpt", selects Anthropic |
| Llm.CapitalClaude | models/llm.py:58-59 | "Claude 3.5 Sonnet" selects the Anthropic configuration |
| Llm.CreateLlm | models/llm.py:21-50 | model and api_key are always passed; base_url is passed exactly for an OpenAI configuration with a non-empty URL; no other argument is passed; the class matches the configuration |
| Llm.CreatedKwargs | models/llm.py:33-40 | a configuration from the factory passes a base URL exactly for DeepSeek names, and then the DeepSeek URL |
| Llm.GptBeforeClaude | models/llm.py:54-58 | "gpt-4-claude" selects OpenAI without a base URL: branch order decides overlaps |
| Llm.CapitalGeminiRefused | models/llm.py:52-68 | "Gemini" with a capital G is refused, because the prefix tests are case-sensitive |
| Examples.LoginSubstitution | examples/login_form.py:18-46 | the two placeholders become the user name and password, unless the user name itself mentions `${password}` |
| Examples.UserNameMentioningPassword | handlers/scriptexecutor.py:48-49 | because substitution is sequential, a user name of `${password}` turns into the password |
| Examples.LoginNavigateStep | examples/login_form.py:23-32 | the first step is "Navigate to <url>" |
| Examples.LoginFillStep | examples/login_form.py:33-48 | the form step types the substituted user name and password into their selectors |
| Examples.LoginValidation | examples/login_form.py:58-61 | the submit step's validation is "Wait for URL to change (timeout: 5000ms)" |
| Examples.LoginSubmitStep | examples/login_form.py:49-62 | the submit step clicks and then waits for the URL to change |
| Examples.LoginTasks | examples/login_form.py:11-64 | the filled-in login script translates into exactly five instructions, in order |
| Examples.SearchValidation | examples/google_search.py:35-38 | the search step's validation waits for "#search" with the default 5000 ms |
| Examples.SearchNavigateStep | examples/google_search.py:11-20 | the first step navigates to Google |
| Examples.SearchQueryStep | examples/google_search.py:21-39 | each of the search step's two actions is followed by the validation instruction |
| Examples.SearchCaptureStep | examples/google_search.py:40-53 | the capture step extracts ".g" and screenshots "#search", with no validation |
| Examples.GoogleSearchTasks | examples/google_search.py:3-55 | the search script translates into exactly seven instructions, the validation instruction appearing twice |

## Left out

- **Time.**
  - Timestamps (`time.time()`, `datetime.now()`) are the caller's `now` and `stamp` parameters.
  - The start, end and entry timestamps of runs and executions are not modelled.
- **Sleeps and floats.**
  - The sleeps (`task_interval`, `period`) are not modelled. `period` is kept only as the value reported in the result.
  - The float fields `temperature` and `top_p` are not modelled.
- **Cancellation.** It is modelled at two points:
  - an agent call answering `Cancels`;
  - the period sleep, through `waits`.
  A cancellation during the `task_interval` sleep after an attempt is not modelled as such. The model reproduces the source's outcome when the attempt before that sleep answers `Cancels`, the last attempt of a run included: either way the run in progress is discarded and the execution ends cancelled.
- **The unbounded periodic loop.** `while True` without `stop_on_error` is bounded by `waits`, the number of period sleeps that finish before the caller cancels. Its non-termination is not modelled.
- **The "error" status of `execute_script`** (handlers/scriptexecutor.py:178-181) is unreachable in the model for well-typed configuration values:
  - exceptions from the agent are caught per attempt;
  - translation errors are raised before the `try`.
- **Typing of dictionaries.** The source's `Dict[str, Any]` values are typed in the model:
  - `Browser.Value` is `Str | Int | Null`. Floats, booleans and nested values in a validation dictionary have no counterpart. For example, a `"timeout": 5000.0` would print "(timeout: 5000.0ms)", which the model cannot express.
  - `Tasks.Config` gives each configuration key its intended type, so ill-typed values are excluded. With them the "error" status is reachable. For example, `max_retries="3"` makes `range(max_retries)` raise `TypeError` (handlers/scriptexecutor.py:113). That is caught at handlers/scriptexecutor.py:178-181, and `execute_task` then fails the task with that exception's text.
- **Foreign calls.** The browser-automation library and the LangChain chat-model constructors are not modelled. `Controller(...)`, `get_agent`, `cleanup`, `start` and `stop` are oracles:
  - `get_agent` is a function of the controller that gives an agent or an exception's text;
  - `cleanup` and `stop` are reduced to dropping the controller.
  - `cleanup`, `start` and `stop` are taken never to raise. In the source, a raising `cleanup()` (handlers/taskmanager.py:77) skips the `del` at line 78 and escapes `execute_task`. A raising `start()` (line 112) skips the insertion, and a raising `stop()` (line 117) skips the `del`. The model's promise that `ExecuteTask`, `StartBrowser` and `StopBrowser` drop or add the controller rests on that.
- **`Controller(headless=...)`.** In `start_browser` it leaves debug mode to the library's default, written `None`.
- **`create_llm_config`'s `**kwargs`.** No caller passes any, so extra field overrides are not modelled.
- **`Strings.Lower`.** It is ASCII-only. Python's `str.lower` also folds non-ASCII letters.
- **`Tasks.TaskManager.GetAllTasks`.** It promises each status object exactly once but not the dictionary's insertion order, which Dafny maps do not keep.
- **The in-place rewrite of `action.value`.** It is modelled on values: `ScriptToTasks` returns the rewritten script.
  - An action object that appears twice in a script, getting substituted twice, is not modelled.
  - On a failed translation, `StepToTasks` and `ScriptToTasks` still return the script as far as it was rewritten, but their contracts say nothing about it.
- **Validation of `action_type`.** Pydantic validates `action_type` against the seven `ActionType` values (models/browser.py:15, 23-24). The model keeps it as a plain string, so `ScriptTranslation.ScriptTasksFailure`, `ScriptTranslation.ScriptTasksError` and `Tasks.UnsupportedActionFails` are about scripts built without that validation; a validated script never reaches the "Unsupported action type" branch.
- **Concurrency.** None of the managers' operations are concurrent-safe in the source. The model is sequential.
- **The rest of the repository.** Not part of this model:
  - handlers/agenthandler.py, api/main.py, config/logging.py, models/task.py and models/config.py;
  - the HTTP client part of examples/login_form.py (lines 66-174).
