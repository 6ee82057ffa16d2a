/** The values the workflow engine works on: steps, rows, instances and JSON payloads. */
module Types {
  datatype Option<+T> = None | Some(value: T)

  /** How a step is advanced. */
  datatype TriggerType = Manual | Auto | QueueTi | Http

  datatype Status =
    | Pending
    | WaitingManual
    | WaitingQueueTi
    | Running
    | Completed
    | Failed
  {
    predicate Waiting() { WaitingManual? || WaitingQueueTi? }
  }

  datatype InstanceStatus =
    | InstanceRunning
    | InstanceCompleted
    | InstanceFailed

  /** A payload. `Absent` is the empty message (SQL NULL, or length 0);
      `Object` is what marshalling a string-keyed map yields. */
  datatype Json = Absent | Text(text: string) | Object(fields: map<string, Json>)

  /** An error always carries some text. */
  type ErrorText = s: string | s != "" witness "error"

  datatype HttpResult = Success(output: Json) | Failure(message: ErrorText)

  /** The columns of a step row that never change after insertion. */
  datatype StepDef = StepDef(trigger: TriggerType, deps: seq<string>, staticInput: Json, publishTopic: string)

  /** The columns of a step row that the engine writes. An empty `error` is SQL NULL. */
  datatype Row = Row(
    status: Status,
    input: Json,
    output: Json,
    error: string,
    startedAt: Option<nat>,
    completedAt: Option<nat>)

  /** All rows of one instance, by step name (unique per instance). */
  type Table = map<string, Row>

  /** What is fixed for one instance: the steps in `step_order`, their constant
      columns, and whether a queue-ti poller is configured. */
  datatype Config = Config(order: seq<string>, defs: map<string, StepDef>, poller: bool)
  {
    ghost predicate Valid()
    {
      && (forall i :: 0 <= i < |order| ==> order[i] !in order[..i])
      && (forall n :: n in order <==> n in defs)
    }
  }

  // ---- The column updates of the SQL statements ----

  /** The row that CreateSteps inserts. */
  function FreshRow(): Row
  {
    Row(Pending, Absent, Absent, "", None, None)
  }

  /** The SET list of ClaimStep. */
  function ClaimRow(r: Row, status: Status, input: Json, now: nat): Row
  {
    Row(
      status,
      if status.Running? || status.Waiting() then input else r.input,
      r.output,
      r.error,
      if status.Running? && r.startedAt.None? then Some(now) else r.startedAt,
      r.completedAt)
  }

  /** The SET list of UpdateStepStatus. */
  function UpdateRow(r: Row, status: Status, payload: Json, error: string, now: nat): Row
  {
    var finished := status.Completed? || status.Failed?;
    Row(
      status,
      if status.Running? || status.Waiting() then payload else r.input,
      if finished then payload else r.output,
      error,
      if (status.Running? || status.Completed?) && r.startedAt.None? then Some(now) else r.startedAt,
      if finished then Some(now) else r.completedAt)
  }

  // ---- Reading a table ----

  predicate AnyFailed(rows: Table)
  {
    exists n :: n in rows && rows[n].status.Failed?
  }

  predicate AllFinished(rows: Table)
  {
    forall n :: n in rows ==> rows[n].status.Completed? || rows[n].status.Failed?
  }

  predicate AllCompleted(rows: Table)
  {
    forall n :: n in rows ==> rows[n].status.Completed?
  }

  predicate DepsDone(deps: seq<string>, rows: Table)
  {
    forall d :: d in deps ==> d in rows && rows[d].status.Completed?
  }

  /** The outputs of completed steps, as `buildCompletedSet` collects them. */
  function CompletedOutputs(rows: Table): map<string, Json>
  {
    map n | n in rows && rows[n].status.Completed? :: rows[n].output
  }

  /** Of the named steps only. */
  function OutputsAmong(names: seq<string>, rows: Table): map<string, Json>
  {
    map n | n in names && n in rows && rows[n].status.Completed? :: rows[n].output
  }

  lemma OneMoreOutput(names: seq<string>, i: nat, rows: Table)
    requires i < |names| && names[i] in rows
    ensures OutputsAmong(names[..i + 1], rows)
         == if rows[names[i]].status.Completed?
            then OutputsAmong(names[..i], rows)[names[i] := rows[names[i]].output]
            else OutputsAmong(names[..i], rows)
  {
    assert names[..i + 1] == names[..i] + [names[i]];
  }

  /** The object of the listed dependencies' non-empty outputs; absent when there are none. */
  function MergeOutputs(deps: seq<string>, outputs: map<string, Json>): Json
  {
    var merged := map d | d in outputs && d in deps && outputs[d] != Absent :: outputs[d];
    if merged == map[] then Absent else Object(merged)
  }

  /** The input with which a step is claimed from a snapshot. */
  function StepInput(def: StepDef, rows: Table): Json
  {
    if def.staticInput != Absent then def.staticInput
    else MergeOutputs(def.deps, CompletedOutputs(rows))
  }
}
