/** The task registry of the task manager as values: the map from task id to status record and the
    transitions its operations make on it. The `Tasks` module's classes are proved against these. */
module TaskRegistry {
  import opened Wrappers
  import opened Format
  import ScriptExecutor

  /** The four status strings a task record can hold. */
  datatype TaskState = Running | Completed | Failed | Cancelled
  {
    function Name(): string
    {
      match this
      case Running => "running"
      case Completed => "completed"
      case Failed => "failed"
      case Cancelled => "cancelled"
    }
  }

  /** A task status record. Times are the values of `time.time()` the caller supplies. */
  datatype Record = Record(
    taskId: string,
    status: TaskState,
    startTime: real,
    endTime: Option<real>,
    result: Option<ScriptExecutor.ExecutionResult>,
    error: Option<string>,
    logs: seq<string>)

  type Registry = map<string, Record>

  /** Python's `int(x)` for a float: truncation toward zero. */
  function Trunc(x: real): (i: int)
    ensures x >= 0.0 ==> i as real <= x < i as real + 1.0
    ensures x < 0.0 ==> i as real - 1.0 < x <= i as real
  {
    if x >= 0.0 then x.Floor else -((-x).Floor)
  }

  /** `f"task_{t}_{counter}"` */
  function TaskId(t: int, counter: int): string
  {
    "task_" + IntToString(t) + "_" + IntToString(counter)
  }

  /** The record `register_task` creates. */
  function NewRecord(id: string, now: real): Record
  {
    Record(id, Running, now, None, None, None, [])
  }

  function Register(reg: Registry, id: string, now: real): Registry
  {
    reg[id := NewRecord(id, now)]
  }

  function Complete(reg: Registry, id: string, result: ScriptExecutor.ExecutionResult, now: real): Registry
  {
    if id in reg then reg[id := reg[id].(status := Completed, endTime := Some(now), result := Some(result))] else reg
  }

  function Fail(reg: Registry, id: string, error: string, now: real): Registry
  {
    if id in reg then reg[id := reg[id].(status := Failed, endTime := Some(now), error := Some(error))] else reg
  }

  /** `cancel_task`: the new registry and the returned flag. */
  function Cancel(reg: Registry, id: string, now: real): (Registry, bool)
  {
    if id in reg && reg[id].status == Running then (reg[id := reg[id].(status := Cancelled, endTime := Some(now))], true)
    else (reg, false)
  }

  /** `add_log` with the given time stamp text. */
  function AddLog(reg: Registry, id: string, stamp: string, message: string): Registry
  {
    if id in reg then reg[id := reg[id].(logs := reg[id].logs + [stamp + ": " + message])] else reg
  }

  function ClearHistory(reg: Registry): Registry
  {
    map id | id in reg && reg[id].status == Running :: reg[id]
  }

  // ---------------------------------------------------------------------------------------------
  // Task ids

  /** `_` does not occur in `s`. */
  predicate NoUnderscore(s: string)
  {
    forall k :: 0 <= k < |s| ==> s[k] != '_'
  }

  lemma IntToStringNoUnderscore(i: int)
    ensures NoUnderscore(IntToString(i))
  {
  }

  /** Splitting at the first underscore: when the parts before it contain none, the parts agree. */
  lemma {:induction false} SplitAtUnderscore(x: string, y: string, x': string, y': string)
    requires NoUnderscore(x) && NoUnderscore(x') && x + "_" + y == x' + "_" + y'
    ensures x == x' && y == y'
  {
    var s := x + "_" + y;
    assert s[|x|] == '_' && (x' + "_" + y')[|x'|] == '_';
    assert |x| == |x'|;
    assert x == s[..|x|] == x';
    assert y == s[|x| + 1..] == y';
  }

  /** Task ids determine the time and the counter they were made from; in particular two ids
      made with distinct counters differ whatever the times. */
  lemma TaskIdInjective(t: int, c: int, t': int, c': int)
    requires TaskId(t, c) == TaskId(t', c')
    ensures t == t' && c == c'
  {
    var p := "task_";
    var a, b, a', b' := IntToString(t), IntToString(c), IntToString(t'), IntToString(c');
    IntToStringNoUnderscore(t);
    IntToStringNoUnderscore(t');
    assert p + a + "_" + b == p + (a + "_" + b);
    assert p + a' + "_" + b' == p + (a' + "_" + b');
    assert a + "_" + b == (p + a + "_" + b)[|p|..];
    assert a' + "_" + b' == (p + a' + "_" + b')[|p|..];
    SplitAtUnderscore(a, b, a', b');
    IntToStringInjective(t, t');
    IntToStringInjective(c, c');
  }

  // ---------------------------------------------------------------------------------------------
  // Properties of the transitions

  /** A registered task is running, with no end time, result or error and no logs; it replaces any
      earlier record under the same id, and no other record changes. */
  lemma RegisterSpec(reg: Registry, id: string, now: real)
    ensures var r := Register(reg, id, now);
      && r.Keys == reg.Keys + {id}
      && r[id].taskId == id && r[id].status == Running && r[id].startTime == now
      && r[id].endTime.None? && r[id].result.None? && r[id].error.None? && r[id].logs == []
      && forall other :: other in reg && other != id ==> r[other] == reg[other]
  {
  }

  /** `cancel_task` succeeds exactly on a running task; it then marks it cancelled at `now` and
      keeps the rest of the record, and otherwise changes nothing. */
  lemma CancelSpec(reg: Registry, id: string, now: real)
    ensures var (r, ok) := Cancel(reg, id, now);
      && (ok <==> id in reg && reg[id].status == Running)
      && (ok ==> r == reg[id := reg[id].(status := Cancelled, endTime := Some(now))] && r[id].status.Name() == "cancelled")
      && (!ok ==> r == reg)
  {
  }

  /** Cancelling twice: the second call reports failure and changes nothing. */
  lemma CancelTwice(reg: Registry, id: string, now: real, later: real)
    ensures var (r, _) := Cancel(reg, id, now);
      Cancel(r, id, later) == (r, false)
  {
  }

  /** `complete_task` and `fail_task` ignore unknown ids; on a known id they overwrite any status
      (a cancelled task included) and leave every other record alone. */
  lemma FinishSpec(reg: Registry, id: string, result: ScriptExecutor.ExecutionResult, error: string, now: real)
    ensures id !in reg ==> Complete(reg, id, result, now) == reg && Fail(reg, id, error, now) == reg
    ensures id in reg ==>
      && Complete(reg, id, result, now)[id] == reg[id].(status := Completed, endTime := Some(now), result := Some(result))
      && Fail(reg, id, error, now)[id] == reg[id].(status := Failed, endTime := Some(now), error := Some(error))
    ensures Complete(reg, id, result, now).Keys == reg.Keys == Fail(reg, id, error, now).Keys
    ensures forall other :: other in reg && other != id ==>
      Complete(reg, id, result, now)[other] == reg[other] && Fail(reg, id, error, now)[other] == reg[other]
  {
  }

  /** A cancelled task that later completes ends up completed: cancellation is not final. */
  lemma CompleteAfterCancel(reg: Registry, id: string, result: ScriptExecutor.ExecutionResult, now: real, later: real)
    requires id in reg && reg[id].status == Running
    ensures Complete(Cancel(reg, id, now).0, id, result, later)[id].status == Completed
  {
  }

  /** `add_log` appends exactly one entry, "<stamp>: <message>", to a known task's logs and
      changes nothing else; an unknown id is ignored. */
  lemma AddLogSpec(reg: Registry, id: string, stamp: string, message: string)
    ensures id !in reg ==> AddLog(reg, id, stamp, message) == reg
    ensures id in reg ==>
      var r := AddLog(reg, id, stamp, message);
      r.Keys == reg.Keys && |r[id].logs| == |reg[id].logs| + 1 && r[id].logs[..|reg[id].logs|] == reg[id].logs
      && r[id].logs[|reg[id].logs|] == stamp + ": " + message
      && r[id] == reg[id].(logs := r[id].logs)
      && forall other :: other in reg && other != id ==> r[other] == reg[other]
  {
    if id in reg {
      var r := AddLog(reg, id, stamp, message);
      assert r[id].logs[..|reg[id].logs|] == reg[id].logs;
    }
  }

  /** `clear_history` keeps exactly the running tasks, with their records unchanged, and
      clearing twice is the same as clearing once. */
  lemma ClearHistorySpec(reg: Registry)
    ensures forall id :: id in ClearHistory(reg) <==> id in reg && reg[id].status == Running
    ensures forall id :: id in ClearHistory(reg) ==> ClearHistory(reg)[id] == reg[id]
    ensures ClearHistory(ClearHistory(reg)) == ClearHistory(reg)
  {
  }
}
