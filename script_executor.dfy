/** Execution of a translated script by an agent (`execute_script` and its inner `run_once`):
    retries per instruction, stopping on error, and the periodic loop. */
module ScriptExecutor {
  import opened Wrappers
  import opened Format
  import opened Browser
  import opened ScriptTranslation

  // ---------------------------------------------------------------------------------------------
  // The agent

  /** What one `agent.execute_task` call does: return a result, raise an ordinary exception with
      the given text, or be cancelled (`asyncio.CancelledError`, which is not caught per attempt). */
  datatype Answer = Returns(result: string) | Raises(error: string) | Cancels

  /** The agent's behaviour: the answer to the instruction dispatched as the `n`-th call overall
      (counting from 0 across all runs). Any stateful agent is one such function. */
  type Agent = (nat, string) -> Answer

  // ---------------------------------------------------------------------------------------------
  // Results

  /** One entry of a run's `results`: the instruction, its result or error, and the attempt
      (counting from 1) it was recorded at. Timestamps are not modelled. */
  datatype Entry =
    | Succeeded(task: string, result: string, attempt: int)
    | Failed(task: string, error: string, attempt: int)

  /** The dictionary `run_once` returns: `error` is present only when the run stopped on error. */
  datatype RunResult = RunResult(success: bool, results: seq<Entry>, error: Option<string>)

  /** A run either finished, after the agent had been called up to (excluding) call number
      `calls`, or was cancelled part-way (its partial results are lost). */
  datatype RunOutcome = Ran(run: RunResult, calls: nat) | RunCancelled

  /** What retrying one instruction comes to: at most one entry (none when retries are disabled)
      and the next call number, or a cancellation. */
  datatype TaskOutcome = Done(entry: Option<Entry>, calls: nat) | TaskCancelled

  function Entries(e: Option<Entry>): seq<Entry>
  {
    if e.Some? then [e.value] else []
  }

  /** The run error text for an instruction that failed on every attempt. */
  function StopError(maxRetries: int, error: string): string
  {
    "Failed after " + IntToString(maxRetries) + " attempts: " + error
  }

  // ---------------------------------------------------------------------------------------------
  // Reference semantics of `run_once`

  /** `for attempt in range(max_retries)`, from attempt number `attempt` (0-based) on, with the
      agent's next call being number `call`. */
  function TryTask(task: string, agent: Agent, call: nat, attempt: nat, maxRetries: int): TaskOutcome
    decreases maxRetries - attempt
  {
    if maxRetries <= attempt then Done(None, call)
    else
      match agent(call, task)
      case Cancels => TaskCancelled
      case Returns(r) => Done(Some(Succeeded(task, r, attempt + 1)), call + 1)
      case Raises(e) =>
        if attempt == maxRetries - 1 then Done(Some(Failed(task, e, attempt + 1)), call + 1)
        else TryTask(task, agent, call + 1, attempt + 1, maxRetries)
  }

  /** Put the entries `es` in front of a run's results; the run fails if `ok` does not hold. */
  function Extend(es: seq<Entry>, ok: bool, o: RunOutcome): RunOutcome
  {
    match o
    case RunCancelled => RunCancelled
    case Ran(r, c) => Ran(RunResult(ok && r.success, es + r.results, r.error), c)
  }

  /** `run_once` over `tasks`, the agent's next call being number `call`. */
  function RunFrom(tasks: seq<string>, agent: Agent, call: nat, maxRetries: int, stopOnError: bool): RunOutcome
    decreases |tasks|
  {
    if tasks == [] then Ran(RunResult(true, [], None), call)
    else
      match TryTask(tasks[0], agent, call, 0, maxRetries)
      case TaskCancelled => RunCancelled
      case Done(eo, c) =>
        if eo.Some? && eo.value.Failed? && stopOnError then
          Ran(RunResult(false, [eo.value], Some(StopError(maxRetries, eo.value.error))), c)
        else
          Extend(Entries(eo), eo.None? || eo.value.Succeeded?, RunFrom(tasks[1..], agent, c, maxRetries, stopOnError))
  }

  // ---------------------------------------------------------------------------------------------
  // Properties of one instruction's retries

  /** The agent's answers behind an entry whose first attempt was call number `first`: every
      attempt before the recorded one raised, and the recorded attempt's answer is the entry's
      result or error. */
  predicate Answered(agent: Agent, first: nat, e: Entry)
  {
    && e.attempt >= 1
    && (forall n: nat :: first <= n < first + e.attempt - 1 ==> agent(n, e.task).Raises?)
    && match e
       case Succeeded(t, r, k) => agent(first + k - 1, t) == Returns(r)
       case Failed(t, err, k) => agent(first + k - 1, t) == Raises(err)
  }

  /** Retrying stays within `max_retries` attempts, gives up only after the last one, uses one
      agent call per attempt, and records exactly what the agent answered. `first` is the call
      number of attempt 0. */
  lemma {:induction false} TryTaskBounds(task: string, agent: Agent, first: nat, attempt: nat, maxRetries: int)
    requires attempt == 0 || attempt < maxRetries
    requires forall n: nat :: first <= n < first + attempt ==> agent(n, task).Raises?
    ensures match TryTask(task, agent, first + attempt, attempt, maxRetries)
      case TaskCancelled => true
      case Done(None, c) => maxRetries <= 0 && c == first
      case Done(Some(e), c) =>
        && e.task == task && attempt + 1 <= e.attempt <= maxRetries
        && (e.Failed? ==> e.attempt == maxRetries)
        && c == first + e.attempt
        && Answered(agent, first, e)
    decreases maxRetries - attempt
  {
    var call := first + attempt;
    if attempt < maxRetries {
      match agent(call, task)
      case Cancels =>
      case Returns(r) =>
      case Raises(e) =>
        if attempt < maxRetries - 1 {
          TryTaskBounds(task, agent, first, attempt + 1, maxRetries);
        }
    }
  }

  /** An instruction on which every attempt raises is recorded as failed after exactly
      `max_retries` calls. */
  lemma {:induction false} TryTaskExhausts(task: string, agent: Agent, call: nat, attempt: nat, maxRetries: int)
    requires attempt < maxRetries
    requires forall n: nat :: call <= n < call + maxRetries - attempt ==> agent(n, task).Raises?
    ensures TryTask(task, agent, call, attempt, maxRetries) ==
      Done(Some(Failed(task, agent(call + maxRetries - attempt - 1, task).error, maxRetries)), call + maxRetries - attempt)
    decreases maxRetries - attempt
  {
    assert agent(call, task).Raises?;
    if attempt < maxRetries - 1 {
      TryTaskExhausts(task, agent, call + 1, attempt + 1, maxRetries);
    }
  }

  // ---------------------------------------------------------------------------------------------
  // Properties of a run

  /** Everything a finished run's entries satisfy, entry by entry: they belong to the run's
      instructions in order (entry `k` to instruction `k`), are recorded within the retry bound,
      and the run succeeds exactly when no entry failed. */
  predicate WellFormedRun(tasks: seq<string>, maxRetries: int, r: RunResult)
  {
    && |r.results| <= |tasks|
    && (forall k :: 0 <= k < |r.results| ==> r.results[k].task == tasks[k])
    && (forall k :: 0 <= k < |r.results| ==> 1 <= r.results[k].attempt <= maxRetries)
    && (forall k :: 0 <= k < |r.results| && r.results[k].Failed? ==> r.results[k].attempt == maxRetries)
    && (r.success <==> forall k :: 0 <= k < |r.results| ==> r.results[k].Succeeded?)
  }

  lemma ExtendWellFormed(tasks: seq<string>, maxRetries: int, e: Entry, r: RunResult)
    requires tasks != [] && e.task == tasks[0] && 1 <= e.attempt <= maxRetries
    requires e.Failed? ==> e.attempt == maxRetries
    requires WellFormedRun(tasks[1..], maxRetries, r)
    ensures WellFormedRun(tasks, maxRetries, RunResult(e.Succeeded? && r.success, [e] + r.results, r.error))
  {
    var rs := [e] + r.results;
    assert forall k :: 1 <= k < |rs| ==> rs[k] == r.results[k - 1] && tasks[k] == tasks[1..][k - 1];
  }

  /** A finished run is well formed; nothing is recorded when retries are disabled
      (`max_retries <= 0`), in which case the run succeeds without calling the agent. */
  lemma {:induction false} RunWellFormed(tasks: seq<string>, agent: Agent, call: nat, maxRetries: int, stopOnError: bool)
    requires RunFrom(tasks, agent, call, maxRetries, stopOnError).Ran?
    ensures WellFormedRun(tasks, maxRetries, RunFrom(tasks, agent, call, maxRetries, stopOnError).run)
    ensures maxRetries <= 0 ==> RunFrom(tasks, agent, call, maxRetries, stopOnError) == Ran(RunResult(true, [], None), call)
    decreases |tasks|
  {
    if tasks != [] {
      TryTaskBounds(tasks[0], agent, call, 0, maxRetries);
      assert call + 0 == call;
      match TryTask(tasks[0], agent, call, 0, maxRetries)
      case Done(eo, c) =>
        if eo.Some? && eo.value.Failed? && stopOnError {
        } else {
          RunWellFormed(tasks[1..], agent, c, maxRetries, stopOnError);
          var r := RunFrom(tasks[1..], agent, c, maxRetries, stopOnError).run;
          if eo.Some? {
            ExtendWellFormed(tasks, maxRetries, eo.value, r);
          }
        }
    }
  }

  /** With `stop_on_error`, a run never goes past a failed instruction: only its last entry can
      be a failure, and a failed run ends with that failure and reports it as
      "Failed after <max_retries> attempts: <error>". Without it no run carries an error text. */
  lemma {:induction false} RunStopsOnError(tasks: seq<string>, agent: Agent, call: nat, maxRetries: int, stopOnError: bool)
    requires RunFrom(tasks, agent, call, maxRetries, stopOnError).Ran?
    ensures var r := RunFrom(tasks, agent, call, maxRetries, stopOnError).run;
      && (stopOnError ==> forall k :: 0 <= k < |r.results| - 1 ==> r.results[k].Succeeded?)
      && (stopOnError && !r.success ==>
            r.results != [] && r.results[|r.results| - 1].Failed? &&
            r.error == Some(StopError(maxRetries, r.results[|r.results| - 1].error)))
      && (stopOnError && r.success ==> r.error.None?)
      && (!stopOnError ==> r.error.None?)
    decreases |tasks|
  {
    if tasks != [] {
      match TryTask(tasks[0], agent, call, 0, maxRetries)
      case Done(eo, c) =>
        if eo.Some? && eo.value.Failed? && stopOnError {
        } else {
          RunStopsOnError(tasks[1..], agent, c, maxRetries, stopOnError);
          var r := RunFrom(tasks[1..], agent, c, maxRetries, stopOnError).run;
          var rs := Entries(eo) + r.results;
          assert forall k :: |Entries(eo)| <= k < |rs| ==> rs[k] == r.results[k - |Entries(eo)|];
        }
    }
  }

  /** With retries enabled, a finished run records one entry per instruction, in order, unless it
      stopped on error: in particular every successful run, and every run without
      `stop_on_error`, covers all instructions. */
  lemma {:induction false} RunCoversAll(tasks: seq<string>, agent: Agent, call: nat, maxRetries: int, stopOnError: bool)
    requires maxRetries >= 1 && RunFrom(tasks, agent, call, maxRetries, stopOnError).Ran?
    ensures var r := RunFrom(tasks, agent, call, maxRetries, stopOnError).run;
      |r.results| == |tasks| || (stopOnError && !r.success)
    decreases |tasks|
  {
    if tasks != [] {
      TryTaskBounds(tasks[0], agent, call, 0, maxRetries);
      assert call + 0 == call;
      match TryTask(tasks[0], agent, call, 0, maxRetries)
      case Done(eo, c) =>
        if !(eo.Some? && eo.value.Failed? && stopOnError) {
          RunCoversAll(tasks[1..], agent, c, maxRetries, stopOnError);
        }
    }
  }

  /** Number of agent calls behind a run's entries: one per attempt up to the recorded one. */
  function Attempts(es: seq<Entry>): int
    decreases |es|
  {
    if es == [] then 0 else es[0].attempt + Attempts(es[1..])
  }

  /** The entries `es` record, one after the other, what the agent answered from call number
      `first` on: each entry's attempts take the calls right after those of the entries before it. */
  predicate AnsweredFrom(agent: Agent, first: nat, es: seq<Entry>)
    decreases |es|
  {
    es == [] || (Answered(agent, first, es[0]) && AnsweredFrom(agent, first + es[0].attempt, es[1..]))
  }

  /** Entry `k` of answered entries was first tried at call `first + Attempts(es[..k])`. */
  lemma {:induction false} AnsweredAt(agent: Agent, first: nat, es: seq<Entry>, k: nat)
    requires AnsweredFrom(agent, first, es) && k < |es|
    ensures first + Attempts(es[..k]) >= first
    ensures Answered(agent, first + Attempts(es[..k]), es[k])
    decreases k
  {
    assert es[..0] == [];
    if k > 0 {
      AnsweredAt(agent, first + es[0].attempt, es[1..], k - 1);
      assert es[..k][1..] == es[1..][..k - 1];
    }
  }

  /** Answered entries, entry by entry. */
  /** Every entry `k` records the agent's answers from call `first` + the attempts of the entries
      before it on. */
  predicate AnsweredEvery(agent: Agent, first: nat, es: seq<Entry>)
  {
    forall k :: 0 <= k < |es| ==>
      first + Attempts(es[..k]) >= first && Answered(agent, first + Attempts(es[..k]), es[k])
  }

  lemma AnsweredEach(agent: Agent, first: nat, es: seq<Entry>)
    requires AnsweredFrom(agent, first, es)
    ensures AnsweredEvery(agent, first, es)
  {
    forall k | 0 <= k < |es|
      ensures first + Attempts(es[..k]) >= first && Answered(agent, first + Attempts(es[..k]), es[k])
    {
      AnsweredAt(agent, first, es, k);
    }
  }

  /** An answered entry put in front of the rest of a run. */
  lemma ExtendAnswered(agent: Agent, call: nat, e: Entry, ok: bool, o: RunOutcome)
    requires o.Ran? && Answered(agent, call, e)
    requires o.calls == call + e.attempt + Attempts(o.run.results)
    requires AnsweredFrom(agent, call + e.attempt, o.run.results)
    ensures Extend([e], ok, o).Ran?
    ensures Extend([e], ok, o).calls == call + Attempts(Extend([e], ok, o).run.results)
    ensures AnsweredFrom(agent, call, Extend([e], ok, o).run.results)
  {
    var es := Extend([e], ok, o).run.results;
    assert es == [e] + o.run.results;
    assert es[1..] == o.run.results;
  }

  /** What `TryTaskBounds` says of an instruction's first try that recorded an entry. */
  lemma FirstAnswered(task: string, agent: Agent, call: nat, maxRetries: int, e: Entry, c: nat)
    requires TryTask(task, agent, call, 0, maxRetries) == Done(Some(e), c)
    ensures c == call + e.attempt && Answered(agent, call, e)
  {
    TryTaskBounds(task, agent, call, 0, maxRetries);
    assert call + 0 == call;
  }

  /** What `TryTaskBounds` says of an instruction's first try that recorded nothing. */
  lemma FirstSkipped(task: string, agent: Agent, call: nat, maxRetries: int, c: nat)
    requires TryTask(task, agent, call, 0, maxRetries) == Done(None, c)
    ensures c == call
  {
    TryTaskBounds(task, agent, call, 0, maxRetries);
    assert call + 0 == call;
  }

  /** `RunAnswered` for a run stopped on error by its first instruction. */
  lemma RunAnsweredStop(tasks: seq<string>, agent: Agent, call: nat, maxRetries: int, stopOnError: bool, e: Entry, c: nat)
    requires tasks != [] && TryTask(tasks[0], agent, call, 0, maxRetries) == Done(Some(e), c)
    requires e.Failed? && stopOnError
    ensures var o := RunFrom(tasks, agent, call, maxRetries, stopOnError);
      o.Ran? && o.calls == call + Attempts(o.run.results) && AnsweredFrom(agent, call, o.run.results)
  {
    FirstAnswered(tasks[0], agent, call, maxRetries, e, c);
    assert [e][1..] == [];
  }

  /** `RunAnswered` for a run whose first instruction recorded entry `e` and did not stop it,
      given it for the rest of the run. */
  lemma RunAnsweredStep(tasks: seq<string>, agent: Agent, call: nat, maxRetries: int, stopOnError: bool, e: Entry, c: nat)
    requires tasks != [] && TryTask(tasks[0], agent, call, 0, maxRetries) == Done(Some(e), c)
    requires !(e.Failed? && stopOnError)
    requires var rest := RunFrom(tasks[1..], agent, c, maxRetries, stopOnError);
      rest.Ran? && rest.calls == c + Attempts(rest.run.results) && AnsweredFrom(agent, c, rest.run.results)
    ensures var o := RunFrom(tasks, agent, call, maxRetries, stopOnError);
      o.Ran? && o.calls == call + Attempts(o.run.results) && AnsweredFrom(agent, call, o.run.results)
  {
    FirstAnswered(tasks[0], agent, call, maxRetries, e, c);
    var rest := RunFrom(tasks[1..], agent, c, maxRetries, stopOnError);
    assert RunFrom(tasks, agent, call, maxRetries, stopOnError) == Extend([e], e.Succeeded?, rest);
    ExtendAnswered(agent, call, e, e.Succeeded?, rest);
  }

  /** `RunAnswered` for a run whose first instruction recorded nothing (retries disabled),
      given it for the rest of the run. */
  lemma RunAnsweredSkip(tasks: seq<string>, agent: Agent, call: nat, maxRetries: int, stopOnError: bool, c: nat)
    requires tasks != [] && TryTask(tasks[0], agent, call, 0, maxRetries) == Done(None, c)
    requires var rest := RunFrom(tasks[1..], agent, c, maxRetries, stopOnError);
      rest.Ran? && rest.calls == c + Attempts(rest.run.results) && AnsweredFrom(agent, c, rest.run.results)
    ensures var o := RunFrom(tasks, agent, call, maxRetries, stopOnError);
      o.Ran? && o.calls == call + Attempts(o.run.results) && AnsweredFrom(agent, call, o.run.results)
  {
    FirstSkipped(tasks[0], agent, call, maxRetries, c);
    var rest := RunFrom(tasks[1..], agent, c, maxRetries, stopOnError);
    assert RunFrom(tasks, agent, call, maxRetries, stopOnError) == Extend([], true, rest);
    assert Extend([], true, rest) == rest;
  }

  /** A finished run calls the agent exactly once per recorded attempt and no more, so no
      instruction after a stop is dispatched; its entries record, one after the other, what the
      agent answered (see `RunRecordsAnswers` for the entry-by-entry reading). */
  lemma {:induction false} RunAnswered(tasks: seq<string>, agent: Agent, call: nat, maxRetries: int, stopOnError: bool)
    requires RunFrom(tasks, agent, call, maxRetries, stopOnError).Ran?
    ensures var o := RunFrom(tasks, agent, call, maxRetries, stopOnError);
      o.calls == call + Attempts(o.run.results) && AnsweredFrom(agent, call, o.run.results)
    decreases |tasks|
  {
    if tasks != [] {
      match TryTask(tasks[0], agent, call, 0, maxRetries)
      case Done(eo, c) =>
        if eo.Some? && eo.value.Failed? && stopOnError {
          RunAnsweredStop(tasks, agent, call, maxRetries, stopOnError, eo.value, c);
        } else {
          RunAnswered(tasks[1..], agent, c, maxRetries, stopOnError);
          if eo.Some? {
            RunAnsweredStep(tasks, agent, call, maxRetries, stopOnError, eo.value, c);
          } else {
            RunAnsweredSkip(tasks, agent, call, maxRetries, stopOnError, c);
          }
        }
    }
  }

  /** Entry by entry: a finished run's `k`-th entry records what the agent answered for that
      instruction, its first attempt being the call right after all attempts of the entries
      before it; and the run used exactly as many agent calls as its entries record attempts. */
  lemma RunRecordsAnswers(tasks: seq<string>, agent: Agent, call: nat, maxRetries: int, stopOnError: bool,
                          r: RunResult, c: nat)
    requires RunFrom(tasks, agent, call, maxRetries, stopOnError) == Ran(r, c)
    ensures c == call + Attempts(r.results)
    ensures AnsweredEvery(agent, call, r.results)
  {
    RunAnswered(tasks, agent, call, maxRetries, stopOnError);
    AnsweredEach(agent, call, r.results);
  }

  /** The agent never answers with a cancellation. */
  ghost predicate NeverCancels(agent: Agent)
  {
    forall n: nat, t: string :: agent(n, t) != Cancels
  }

  /** Retrying ends with an outcome, not a cancellation, when the agent never cancels. */
  lemma {:induction false} TryFinishes(task: string, agent: Agent, call: nat, attempt: nat, maxRetries: int)
    requires NeverCancels(agent)
    ensures TryTask(task, agent, call, attempt, maxRetries).Done?
    decreases maxRetries - attempt
  {
    if attempt < maxRetries - 1 && agent(call, task).Raises? {
      TryFinishes(task, agent, call + 1, attempt + 1, maxRetries);
    }
  }

  /** Retrying is cancelled only by an agent call, from `call` on, that answered `Cancels`. */
  lemma {:induction false} TryCancelledBy(task: string, agent: Agent, call: nat, attempt: nat, maxRetries: int)
    ensures TryTask(task, agent, call, attempt, maxRetries) == TaskCancelled ==>
      exists n: nat :: call <= n && agent(n, task) == Cancels
    decreases maxRetries - attempt
  {
    if attempt < maxRetries - 1 && agent(call, task).Raises? {
      TryCancelledBy(task, agent, call + 1, attempt + 1, maxRetries);
    }
  }

  /** A run finishes when the agent never cancels. */
  lemma {:induction false} RunFinishes(tasks: seq<string>, agent: Agent, call: nat, maxRetries: int, stopOnError: bool)
    requires NeverCancels(agent)
    ensures RunFrom(tasks, agent, call, maxRetries, stopOnError).Ran?
    decreases |tasks|
  {
    if tasks != [] {
      TryFinishes(tasks[0], agent, call, 0, maxRetries);
      match TryTask(tasks[0], agent, call, 0, maxRetries)
      case Done(eo, c) =>
        if !(eo.Some? && eo.value.Failed? && stopOnError) {
          RunFinishes(tasks[1..], agent, c, maxRetries, stopOnError);
        }
    }
  }

  /** A run is cancelled only by an agent call, from `call` on, that answered `Cancels` for one
      of its instructions. */
  lemma {:induction false} RunCancelledBy(tasks: seq<string>, agent: Agent, call: nat, maxRetries: int, stopOnError: bool)
    ensures RunFrom(tasks, agent, call, maxRetries, stopOnError) == RunCancelled ==>
      exists n: nat, k :: call <= n && 0 <= k < |tasks| && agent(n, tasks[k]) == Cancels
    decreases |tasks|
  {
    if tasks != [] {
      TryCancelledBy(tasks[0], agent, call, 0, maxRetries);
      match TryTask(tasks[0], agent, call, 0, maxRetries)
      case TaskCancelled =>
        var n: nat :| call <= n && agent(n, tasks[0]) == Cancels;
        assert agent(n, tasks[0]) == Cancels;
      case Done(eo, c) =>
        if !(eo.Some? && eo.value.Failed? && stopOnError) {
          RunCancelledBy(tasks[1..], agent, c, maxRetries, stopOnError);
          if eo.Some? {
            FirstAnswered(tasks[0], agent, call, maxRetries, eo.value, c);
          } else {
            FirstSkipped(tasks[0], agent, call, maxRetries, c);
          }
          if RunFrom(tasks[1..], agent, c, maxRetries, stopOnError) == RunCancelled {
            var n: nat, k :| c <= n && 0 <= k < |tasks[1..]| && agent(n, tasks[1..][k]) == Cancels;
            assert agent(n, tasks[k + 1]) == Cancels;
          }
        }
    }
  }

  /** When the agent raises on every call, a run with `stop_on_error` records a single failed entry
      for the first instruction, after `max_retries` calls. */
  lemma AlwaysFailingRun(tasks: seq<string>, agent: Agent, call: nat, maxRetries: int)
    requires tasks != [] && maxRetries >= 1
    requires forall n: nat, t: string :: agent(n, t).Raises?
    ensures RunFrom(tasks, agent, call, maxRetries, true) ==
      var err := agent(call + maxRetries - 1, tasks[0]).error;
      Ran(RunResult(false, [Failed(tasks[0], err, maxRetries)], Some(StopError(maxRetries, err))), call + maxRetries)
  {
    TryTaskExhausts(tasks[0], agent, call, 0, maxRetries);
  }

  // ---------------------------------------------------------------------------------------------
  // `run_once`

  lemma ExtendNested(es: seq<Entry>, ok: bool, fs: seq<Entry>, ok2: bool, o: RunOutcome)
    ensures Extend(es, ok, Extend(fs, ok2, o)) == Extend(es + fs, ok && ok2, o)
  {
    if o.Ran? {
      assert es + (fs + o.run.results) == es + fs + o.run.results;
    }
  }

  /** One retry loop of `run_once` for `task`, the agent's next call being number `call`: returns
      what `TryTask` describes, the entry it records and the next call number. */
  method RetryTask(task: string, agent: Agent, call: nat, maxRetries: int) returns (out: TaskOutcome)
    ensures out == TryTask(task, agent, call, 0, maxRetries)
  {
    var next := call;
    var attempt := 0;
    while attempt < maxRetries
      invariant 0 <= attempt && next == call + attempt
      invariant TryTask(task, agent, call, 0, maxRetries) == TryTask(task, agent, next, attempt, maxRetries)
      decreases maxRetries - attempt
    {
      var answer := agent(next, task);
      match answer
      case Cancels =>
        return TaskCancelled;
      case Returns(r) =>
        return Done(Some(Succeeded(task, r, attempt + 1)), next + 1);
      case Raises(e) =>
        if attempt == maxRetries - 1 {
          return Done(Some(Failed(task, e, attempt + 1)), next + 1);
        }
      next := next + 1;
      attempt := attempt + 1;
    }
    out := Done(None, next);
  }

  /** `run_once`: dispatches the instructions in order, each retried up to `max_retries` times,
      and stops at the first instruction that failed on every attempt when `stop_on_error` holds. */
  method RunOnce(tasks: seq<string>, agent: Agent, start: nat, maxRetries: int, stopOnError: bool) returns (outcome: RunOutcome)
    ensures outcome == RunFrom(tasks, agent, start, maxRetries, stopOnError)
  {
    var results: seq<Entry> := [];
    var success := true;
    var call := start;
    var i := 0;
    while i < |tasks|
      invariant 0 <= i <= |tasks|
      invariant RunFrom(tasks, agent, start, maxRetries, stopOnError) ==
        Extend(results, success, RunFrom(tasks[i..], agent, call, maxRetries, stopOnError))
    {
      var task := tasks[i];
      var out := RetryTask(task, agent, call, maxRetries);
      assert tasks[i..][1..] == tasks[i + 1..];
      match out
      case TaskCancelled =>
        return RunCancelled;
      case Done(eo, c) =>
        if eo.Some? && eo.value.Failed? && stopOnError {
          ExtendNested(results, success, [eo.value], false, Ran(RunResult(true, [], None), c));
          assert results + [eo.value] + [] == results + [eo.value];
          return Ran(RunResult(false, results + [eo.value], Some(StopError(maxRetries, eo.value.error))), c);
        }
        ExtendNested(results, success, Entries(eo), eo.None? || eo.value.Succeeded?,
          RunFrom(tasks[i + 1..], agent, c, maxRetries, stopOnError));
        results := results + Entries(eo);
        success := success && (eo.None? || eo.value.Succeeded?);
        call := c;
      i := i + 1;
    }
    outcome := Ran(RunResult(success, results, None), call);
    assert results + [] == results;
  }

  // ---------------------------------------------------------------------------------------------
  // Reference semantics of `execute_script`

  /** How the script execution ended. */
  datatype Status = Completed | Cancelled

  /** The dictionary `execute_script` returns (timestamps are not modelled). */
  datatype ExecutionResult = ExecutionResult(
    scriptName: string,
    runs: seq<RunResult>,
    isPeriodic: bool,
    period: Option<real>,
    totalRuns: nat,
    successfulRuns: nat,
    failedRuns: nat,
    status: Status)

  /** The runs of the periodic loop from call number `call` on, and whether it ended by
      cancellation. `waits` is how many `sleep(period)` calls finish before the caller cancels the
      execution: the loop itself ends only by a failed run under `stop_on_error`. */
  function PeriodicRuns(tasks: seq<string>, agent: Agent, call: nat, maxRetries: int, stopOnError: bool, waits: nat): (seq<RunResult>, bool)
    decreases waits
  {
    match RunFrom(tasks, agent, call, maxRetries, stopOnError)
    case RunCancelled => ([], true)
    case Ran(r, c) =>
      if !r.success && stopOnError then ([r], false)
      else if waits == 0 then ([r], true)
      else
        var (rs, cancelled) := PeriodicRuns(tasks, agent, c, maxRetries, stopOnError, waits - 1);
        ([r] + rs, cancelled)
  }

  /** The call number each periodic run starts at: the first at `call`, each further one where
      the agent calls of the run before it ended. */
  function PeriodicStarts(tasks: seq<string>, agent: Agent, call: nat, maxRetries: int, stopOnError: bool, waits: nat): (cs: seq<nat>)
    ensures |cs| == |PeriodicRuns(tasks, agent, call, maxRetries, stopOnError, waits).0|
    ensures cs != [] ==> cs[0] == call
    decreases waits
  {
    match RunFrom(tasks, agent, call, maxRetries, stopOnError)
    case RunCancelled => []
    case Ran(r, c) =>
      if (!r.success && stopOnError) || waits == 0 then [call]
      else [call] + PeriodicStarts(tasks, agent, c, maxRetries, stopOnError, waits - 1)
  }

  /** The single run of a non-periodic execution (none when it is cancelled). */
  function SingleRun(tasks: seq<string>, agent: Agent, maxRetries: int, stopOnError: bool): (seq<RunResult>, bool)
  {
    match RunFrom(tasks, agent, 0, maxRetries, stopOnError)
    case RunCancelled => ([], true)
    case Ran(r, _) => ([r], false)
  }

  /** Number of successful runs. */
  function CountSuccessful(runs: seq<RunResult>): (n: nat)
    ensures n <= |runs|
    decreases |runs|
  {
    if runs == [] then 0
    else CountSuccessful(runs[..|runs| - 1]) + (if runs[|runs| - 1].success then 1 else 0)
  }

  /** The result of executing the instructions `tasks` of script `name`. */
  function Execution(name: string, tasks: seq<string>, agent: Agent, periodic: bool, period: real,
                     maxRetries: int, stopOnError: bool, waits: nat): ExecutionResult
  {
    var (runs, cancelled) :=
      if periodic then PeriodicRuns(tasks, agent, 0, maxRetries, stopOnError, waits)
      else SingleRun(tasks, agent, maxRetries, stopOnError);
    var ok := CountSuccessful(runs);
    ExecutionResult(name, runs, periodic, if periodic then Some(period) else None,
      |runs|, ok, |runs| - ok, if cancelled then Cancelled else Completed)
  }

  // ---------------------------------------------------------------------------------------------
  // Properties of an execution

  /** A non-periodic execution has one run, or none when it is cancelled, which only an agent call
      answering `Cancels` does; it completes even when its run failed. */
  lemma SingleExecution(name: string, tasks: seq<string>, agent: Agent, period: real, maxRetries: int, stopOnError: bool, waits: nat)
    ensures var x := Execution(name, tasks, agent, false, period, maxRetries, stopOnError, waits);
      && x.totalRuns == |x.runs| <= 1
      && (x.status == Cancelled <==> x.runs == [])
      && (x.runs != [] ==> Ran(x.runs[0], RunFrom(tasks, agent, 0, maxRetries, stopOnError).calls) == RunFrom(tasks, agent, 0, maxRetries, stopOnError))
      && x.successfulRuns + x.failedRuns == x.totalRuns
      && (x.status == Completed ==> x.successfulRuns == (if x.runs[0].success then 1 else 0))
      && (x.status == Cancelled ==> exists n: nat, k :: 0 <= k < |tasks| && agent(n, tasks[k]) == Cancels)
      && x.period.None?
  {
    RunCancelledBy(tasks, agent, 0, maxRetries, stopOnError);
  }

  /** Under `stop_on_error` the periodic loop runs until the first failed run, which is its last;
      it completes exactly when that failure happens. Without `stop_on_error` it ends only by
      cancellation. */
  lemma {:induction false} PeriodicStopsOnError(tasks: seq<string>, agent: Agent, call: nat, maxRetries: int, stopOnError: bool, waits: nat)
    ensures var (runs, cancelled) := PeriodicRuns(tasks, agent, call, maxRetries, stopOnError, waits);
      && |runs| <= waits + 1
      && (stopOnError ==> forall k :: 0 <= k < |runs| - 1 ==> runs[k].success)
      && (!cancelled ==> stopOnError && runs != [] && !runs[|runs| - 1].success)
      && (stopOnError && runs != [] && !runs[|runs| - 1].success ==> !cancelled)
      && (!stopOnError ==> cancelled)
    decreases waits
  {
    match RunFrom(tasks, agent, call, maxRetries, stopOnError)
    case RunCancelled =>
    case Ran(r, c) =>
      if !r.success && stopOnError {
      } else if waits > 0 {
        PeriodicStopsOnError(tasks, agent, c, maxRetries, stopOnError, waits - 1);
        var (rs, _) := PeriodicRuns(tasks, agent, c, maxRetries, stopOnError, waits - 1);
        assert forall k :: 1 <= k < |[r] + rs| ==> ([r] + rs)[k] == rs[k - 1];
      }
  }

  /** When the agent never cancels, a non-periodic execution has exactly one run, the run of
      `run_once` from the first call, and completes. */
  lemma SingleCompletes(name: string, tasks: seq<string>, agent: Agent, period: real, maxRetries: int, stopOnError: bool, waits: nat)
    requires NeverCancels(agent)
    ensures var x := Execution(name, tasks, agent, false, period, maxRetries, stopOnError, waits);
      && x.totalRuns == 1 && x.status == Completed
      && x.runs == [RunFrom(tasks, agent, 0, maxRetries, stopOnError).run]
  {
    RunFinishes(tasks, agent, 0, maxRetries, stopOnError);
  }

  /** When the agent never cancels, the periodic loop runs once more than the period sleeps that
      finish, unless a failed run under `stop_on_error` ends it first, and then it completes. */
  lemma {:induction false} PeriodicRunsAll(tasks: seq<string>, agent: Agent, call: nat, maxRetries: int, stopOnError: bool, waits: nat)
    requires NeverCancels(agent)
    ensures var (runs, cancelled) := PeriodicRuns(tasks, agent, call, maxRetries, stopOnError, waits);
      && (|runs| == waits + 1 || (stopOnError && !cancelled))
      && (cancelled ==> |runs| == waits + 1)
    decreases waits
  {
    RunFinishes(tasks, agent, call, maxRetries, stopOnError);
    match RunFrom(tasks, agent, call, maxRetries, stopOnError)
    case Ran(r, c) =>
      if !(!r.success && stopOnError) && waits > 0 {
        PeriodicRunsAll(tasks, agent, c, maxRetries, stopOnError, waits - 1);
      }
  }

  /** Every periodic run is a run of `run_once`: the `k`-th starts at call number
      `PeriodicStarts(..)[k]` (the first at `call`) and ends where the next one starts. */
  lemma {:induction false} PeriodicRunsAreRuns(tasks: seq<string>, agent: Agent, call: nat, maxRetries: int, stopOnError: bool, waits: nat, k: nat)
    requires k < |PeriodicRuns(tasks, agent, call, maxRetries, stopOnError, waits).0|
    ensures var runs := PeriodicRuns(tasks, agent, call, maxRetries, stopOnError, waits).0;
      var cs := PeriodicStarts(tasks, agent, call, maxRetries, stopOnError, waits);
      && |cs| == |runs| && cs[0] == call
      && RunFrom(tasks, agent, cs[k], maxRetries, stopOnError).Ran?
      && RunFrom(tasks, agent, cs[k], maxRetries, stopOnError).run == runs[k]
      && (k + 1 < |runs| ==> RunFrom(tasks, agent, cs[k], maxRetries, stopOnError).calls == cs[k + 1])
    decreases waits
  {
    var runs := PeriodicRuns(tasks, agent, call, maxRetries, stopOnError, waits).0;
    var cs := PeriodicStarts(tasks, agent, call, maxRetries, stopOnError, waits);
    match RunFrom(tasks, agent, call, maxRetries, stopOnError)
    case Ran(r, c) =>
      if (!r.success && stopOnError) || waits == 0 {
        assert runs == [r] && cs == [call];
      } else {
        var rs := PeriodicRuns(tasks, agent, c, maxRetries, stopOnError, waits - 1).0;
        var cs' := PeriodicStarts(tasks, agent, c, maxRetries, stopOnError, waits - 1);
        assert runs == [r] + rs && cs == [call] + cs';
        if k == 0 {
          assert runs[0] == r && cs[0] == call;
          if 1 < |runs| {
            assert cs[1] == cs'[0] == c;
          }
        } else {
          PeriodicRunsAreRuns(tasks, agent, c, maxRetries, stopOnError, waits - 1, k - 1);
          assert runs[k] == rs[k - 1] && cs[k] == cs'[k - 1];
          if k + 1 < |runs| {
            assert cs[k + 1] == cs'[k];
          }
        }
      }
  }

  /** The counters agree with the runs: as many runs as counted, split into successful and failed. */
  lemma ExecutionCounts(name: string, tasks: seq<string>, agent: Agent, periodic: bool, period: real, maxRetries: int, stopOnError: bool, waits: nat)
    ensures var x := Execution(name, tasks, agent, periodic, period, maxRetries, stopOnError, waits);
      && x.totalRuns == |x.runs| == x.successfulRuns + x.failedRuns
      && x.successfulRuns == CountSuccessful(x.runs)
      && (periodic && stopOnError ==> x.failedRuns <= 1)
  {
    if periodic && stopOnError {
      PeriodicStopsOnError(tasks, agent, 0, maxRetries, stopOnError, waits);
      var runs := Execution(name, tasks, agent, periodic, period, maxRetries, stopOnError, waits).runs;
      AtMostLastFails(runs);
    }
  }

  /** When every run but the last succeeded, at most one run failed. */
  lemma {:induction false} AtMostLastFails(runs: seq<RunResult>)
    requires forall k :: 0 <= k < |runs| - 1 ==> runs[k].success
    ensures |runs| - CountSuccessful(runs) <= 1
    decreases |runs|
  {
    if |runs| > 1 {
      var init := runs[..|runs| - 1];
      assert forall k :: 0 <= k < |init| ==> init[k] == runs[k];
      AllSucceed(init);
    }
  }

  lemma {:induction false} AllSucceed(runs: seq<RunResult>)
    requires forall k :: 0 <= k < |runs| ==> runs[k].success
    ensures CountSuccessful(runs) == |runs|
    decreases |runs|
  {
    if runs != [] {
      var init := runs[..|runs| - 1];
      assert forall k :: 0 <= k < |init| ==> init[k] == runs[k];
      AllSucceed(init);
    }
  }

  // ---------------------------------------------------------------------------------------------
  // `execute_script`

  /** The `while True` loop of a periodic execution: runs the script, counts the run, stops after
      a failed run under `stop_on_error`, and otherwise sleeps for the period; `waits` is how many
      of those sleeps finish before the caller cancels the execution. */
  method RunPeriodically(tasks: seq<string>, agent: Agent, maxRetries: int, stopOnError: bool, waits: nat)
    returns (runs: seq<RunResult>, total: nat, successful: nat, failed: nat, cancelled: bool)
    ensures (runs, cancelled) == PeriodicRuns(tasks, agent, 0, maxRetries, stopOnError, waits)
    ensures total == |runs| && successful == CountSuccessful(runs) && failed == total - successful
  {
    runs, total, successful, failed := [], 0, 0, 0;
    var call: nat := 0;
    var left: nat := waits;
    assert [] + PeriodicRuns(tasks, agent, 0, maxRetries, stopOnError, waits).0 == PeriodicRuns(tasks, agent, 0, maxRetries, stopOnError, waits).0;
    while true
      invariant left <= waits
      invariant total == |runs| && successful == CountSuccessful(runs) && failed == total - successful
      invariant PeriodicRuns(tasks, agent, 0, maxRetries, stopOnError, waits) ==
        (runs + PeriodicRuns(tasks, agent, call, maxRetries, stopOnError, left).0,
         PeriodicRuns(tasks, agent, call, maxRetries, stopOnError, left).1)
      decreases left
    {
      var outcome := RunOnce(tasks, agent, call, maxRetries, stopOnError);
      if outcome.RunCancelled? {
        assert runs + [] == runs;
        return runs, total, successful, failed, true;
      }
      var r := outcome.run;
      PeriodicAfterRun(tasks, agent, call, maxRetries, stopOnError, left, runs);
      AppendCount(runs, r);
      total := total + 1;
      if r.success {
        successful := successful + 1;
      } else {
        failed := failed + 1;
      }
      runs := runs + [r];
      if !r.success && stopOnError {
        return runs, total, successful, failed, false;
      }
      if left == 0 {
        return runs, total, successful, failed, true;
      }
      call := outcome.calls;
      left := left - 1;
    }
  }

  /** The non-periodic branch of `execute_script`: one run, counted. */
  method RunSingle(tasks: seq<string>, agent: Agent, maxRetries: int, stopOnError: bool)
    returns (runs: seq<RunResult>, total: nat, successful: nat, failed: nat, cancelled: bool)
    ensures (runs, cancelled) == SingleRun(tasks, agent, maxRetries, stopOnError)
    ensures total == |runs| && successful == CountSuccessful(runs) && failed == total - successful
  {
    var outcome := RunOnce(tasks, agent, 0, maxRetries, stopOnError);
    if outcome.RunCancelled? {
      return [], 0, 0, 0, true;
    }
    var r := outcome.run;
    AppendCount([], r);
    assert [] + [r] == [r];
    runs, total := [r], 1;
    successful := if r.success then 1 else 0;
    failed := if r.success then 0 else 1;
    cancelled := false;
  }

  /** `execute_script` after translation: runs the instructions once, or periodically, and keeps
      the run history and counters. */
  method RunScript(name: string, tasks: seq<string>, agent: Agent, periodic: bool, period: real,
                   maxRetries: int, stopOnError: bool, waits: nat) returns (x: ExecutionResult)
    ensures x == Execution(name, tasks, agent, periodic, period, maxRetries, stopOnError, waits)
  {
    var runs: seq<RunResult>, total: nat, successful: nat, failed: nat, cancelled: bool;
    if periodic {
      runs, total, successful, failed, cancelled := RunPeriodically(tasks, agent, maxRetries, stopOnError, waits);
    } else {
      runs, total, successful, failed, cancelled := RunSingle(tasks, agent, maxRetries, stopOnError);
    }
    ExecutionOf(name, tasks, agent, periodic, period, maxRetries, stopOnError, waits, runs, cancelled);
    x := ExecutionResult(name, runs, periodic, if periodic then Some(period) else None,
      total, successful, failed, if cancelled then Cancelled else Completed);
  }

  /** `Execution` in terms of the runs and the cancellation flag of its branch. */
  lemma ExecutionOf(name: string, tasks: seq<string>, agent: Agent, periodic: bool, period: real,
                    maxRetries: int, stopOnError: bool, waits: nat, runs: seq<RunResult>, cancelled: bool)
    requires (runs, cancelled) == if periodic then PeriodicRuns(tasks, agent, 0, maxRetries, stopOnError, waits)
      else SingleRun(tasks, agent, maxRetries, stopOnError)
    ensures Execution(name, tasks, agent, periodic, period, maxRetries, stopOnError, waits) ==
      ExecutionResult(name, runs, periodic, if periodic then Some(period) else None,
        |runs|, CountSuccessful(runs), |runs| - CountSuccessful(runs), if cancelled then Cancelled else Completed)
  {
  }

  /** `execute_script`: translates the script (an unsupported action raises before anything runs),
      then runs it once, or periodically until a failed run under `stop_on_error` or until the
      caller cancels; `waits` is how many `sleep(period)` calls finish before that cancellation. */
  method ExecuteScript(script: AutomationScript, agent: Agent, periodic: bool, period: real,
                       maxRetries: int, stopOnError: bool, waits: nat) returns (res: Result<ExecutionResult, string>)
    ensures ScriptTasks(script.steps, VariablesOf(script)).Failure? ==>
      res == Failure(ScriptTasks(script.steps, VariablesOf(script)).error)
    ensures ScriptTasks(script.steps, VariablesOf(script)).Success? ==>
      res == Success(Execution(script.name, ScriptTasks(script.steps, VariablesOf(script)).value,
        agent, periodic, period, maxRetries, stopOnError, waits))
  {
    var translated, rewritten := ScriptToTasks(script);
    if translated.Failure? {
      return Failure(translated.error);
    }
    var x := RunScript(script.name, translated.value, agent, periodic, period, maxRetries, stopOnError, waits);
    res := Success(x);
  }

  /** What is left of the periodic loop after a run that finished. */
  lemma PeriodicAfterRun(tasks: seq<string>, agent: Agent, call: nat, maxRetries: int, stopOnError: bool, left: nat, runs: seq<RunResult>)
    requires RunFrom(tasks, agent, call, maxRetries, stopOnError).Ran?
    ensures var r := RunFrom(tasks, agent, call, maxRetries, stopOnError).run;
      var c := RunFrom(tasks, agent, call, maxRetries, stopOnError).calls;
      var p := PeriodicRuns(tasks, agent, call, maxRetries, stopOnError, left);
      (runs + p.0, p.1) ==
        if !r.success && stopOnError then (runs + [r], false)
        else if left == 0 then (runs + [r], true)
        else
          var q := PeriodicRuns(tasks, agent, c, maxRetries, stopOnError, left - 1);
          (runs + [r] + q.0, q.1)
  {
    var r := RunFrom(tasks, agent, call, maxRetries, stopOnError).run;
    var c := RunFrom(tasks, agent, call, maxRetries, stopOnError).calls;
    if !(!r.success && stopOnError) && left > 0 {
      ConcatAssoc(runs, [r], PeriodicRuns(tasks, agent, c, maxRetries, stopOnError, left - 1).0);
    }
  }

  lemma ConcatAssoc<T>(a: seq<T>, b: seq<T>, c: seq<T>)
    ensures a + (b + c) == a + b + c
  {
  }

  lemma AppendCount(runs: seq<RunResult>, r: RunResult)
    ensures CountSuccessful(runs + [r]) == CountSuccessful(runs) + (if r.success then 1 else 0)
  {
    assert (runs + [r])[..|runs|] == runs;
  }
}
