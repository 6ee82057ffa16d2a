/** The engine as an interleaved protocol on one instance's rows. Any number of calls is in
    flight, on any number of nodes. Every SQL statement, HTTP request, publish and dispatch is
    one atomic action; a label chooses who acts next. Nothing else synchronises the calls. */
module Protocol {
  import opened Types

  /** Where an in-flight call of StartInstance or TriggerStep stands. After a won claim the
      callers of the recursive `advance` only return, so the innermost position is enough. */
  datatype Pc =
    | Creating(k: nat)                            // about to insert row k, or to advance
    | Listing                                     // about to run ListSteps
    | Looping(snap: Table, j: nat)                // about to look at step j of the snapshot
    | Announcing(snap: Table, j: nat)             // claimed manual step j, about to notify
    | Watching(snap: Table, j: nat)               // claimed queueti step j, about to Watch
    | Sending(n: string, input: Json)             // claimed an http step, about to send
    | Failing(n: string, error: ErrorText)        // about to write `failed`
    | Checking(n: string, out: Json)              // TriggerStep, about to read the step
    | Completing(n: string, out: Json)            // about to write `completed`
    | Publishing(n: string, out: Json)            // wrote `completed`, about to publish
    | Terminating(status: InstanceStatus)         // about to claim the instance
    | Reporting(status: InstanceStatus)           // claimed the instance, about to dispatch
    | Done                                        // returned, or crashed

  /** Observable actions, counted. */
  datatype Effect =
    | Snapshot
    | TriggerCall
    | Sent(n: string)
    | Notified(n: string)
    | Watched(n: string)
    | Accepted(n: string)
    | Wrote(n: string)
    | Published(n: string)
    | TerminalEvent

  /** What travelled with them. */
  datatype Fact =
    | AnswerFact(n: string, input: Json, answer: HttpResult)
    | AcceptFact(n: string, out: Json)
    | WriteFact(n: string, out: Json)
    | PublishFact(n: string, out: Json)

  /** `done` lists the steps in the order in which they first became completed. */
  datatype State = State(
    rows: Table,
    inst: InstanceStatus,
    calls: seq<Pc>,
    clock: nat,
    effects: multiset<Effect>,
    facts: set<Fact>,
    done: seq<string>)

  /** One atomic action of a call, with the position it leaves the call at. */
  datatype Action =
    | Insert(n: string, pc: Pc)                                 // CreateSteps, one row
    | Claim(n: string, status: Status, input: Json, pc: Pc)     // ClaimStep, won
    | Complete(n: string, out: Json, pc: Pc)                    // UpdateStepStatus to `completed`
    | Fail(n: string, error: ErrorText, pc: Pc)                 // UpdateStepStatus to `failed`
    | End(inst: InstanceStatus, pc: Pc)                         // ClaimInstanceTerminal, won
    | Move(pc: Pc, effect: Option<Effect>, fact: Option<Fact>)  // no write to the database

  /** The environment's choices. A label that is not enabled changes nothing, so every
      sequence of labels is a run. `Crash` also stands for an SQL error or a cancelled context. */
  datatype Label =
    | Act(i: nat, answer: HttpResult)
    | Crash(i: nat)
    | Trigger(n: string, out: Json)
    | Tick(d: nat)

  /** One StartInstance call has inserted the instance and is about to insert the steps. */
  function Init(): State
  {
    State(map[], InstanceRunning, [Creating(0)], 0, multiset{}, {}, [])
  }

  function NextRows(s: State, a: Action): Table
  {
    match a
    case Insert(n, _) => s.rows[n := FreshRow()]
    case Claim(n, status, input, _) =>
      if n in s.rows then s.rows[n := ClaimRow(s.rows[n], status, input, s.clock)] else s.rows
    case Complete(n, out, _) =>
      if n in s.rows then s.rows[n := UpdateRow(s.rows[n], Completed, out, "", s.clock)] else s.rows
    case Fail(n, error, _) =>
      if n in s.rows then s.rows[n := UpdateRow(s.rows[n], Failed, Absent, error, s.clock)] else s.rows
    case End(_, _) => s.rows
    case Move(_, _, _) => s.rows
  }

  function Emitted(a: Action): multiset<Effect>
  {
    if a.Complete? then multiset{Wrote(a.n)}
    else if a.Move? && a.effect.Some? then multiset{a.effect.value}
    else multiset{}
  }

  function Learned(a: Action): set<Fact>
  {
    if a.Complete? then {WriteFact(a.n, a.out)}
    else if a.Move? && a.fact.Some? then {a.fact.value}
    else {}
  }

  function Perform(s: State, i: nat, a: Action): State
    requires i < |s.calls|
  {
    State(
      NextRows(s, a),
      if a.End? then a.inst else s.inst,
      s.calls[i := a.pc],
      s.clock,
      s.effects + Emitted(a),
      s.facts + Learned(a),
      if a.Complete? && !(a.n in s.rows && s.rows[a.n].status.Completed?) then s.done + [a.n] else s.done)
  }

  function AfterAnswer(n: string, answer: HttpResult): Pc
  {
    match answer
    case Success(out) => Completing(n, out)
    case Failure(message) => Failing(n, message)
  }

  /** Where `advance` goes once it holds a snapshot. */
  function AfterListing(snap: Table): Pc
  {
    if AnyFailed(snap) then Terminating(InstanceFailed)
    else if AllFinished(snap) then Terminating(InstanceCompleted)
    else Looping(snap, 0)
  }

  /** The step is pending in the table and all its dependencies are completed there. */
  predicate ReadyIn(cfg: Config, rows: Table, n: string)
  {
    n in cfg.defs && n in rows && rows[n].status.Pending? && DepsDone(cfg.defs[n].deps, rows)
  }

  function ClaimStatus(t: TriggerType): Status
  {
    match t
    case Manual => WaitingManual
    case QueueTi => WaitingQueueTi
    case Auto => Running
    case Http => Running
  }

  function AfterClaim(t: TriggerType, snap: Table, j: nat, n: string, input: Json): Pc
  {
    match t
    case Manual => Announcing(snap, j)
    case QueueTi => Watching(snap, j)
    case Auto => Completing(n, input)
    case Http => Sending(n, input)
  }

  /** ClaimStep on step j of the snapshot: a compare-and-set on `pending`. A claimant that
      loses goes on with its stale snapshot. */
  function TryClaim(cfg: Config, s: State, snap: Table, j: nat): Action
    requires cfg.Valid() && j < |cfg.order|
  {
    var n := cfg.order[j];
    var t := cfg.defs[n].trigger;
    var input := StepInput(cfg.defs[n], snap);
    if n in s.rows && s.rows[n].status.Pending?
    then Claim(n, ClaimStatus(t), input, AfterClaim(t, snap, j, n, input))
    else Move(Looping(snap, j + 1), None, None)
  }

  predicate Publishes(cfg: Config, n: string, out: Json)
  {
    n in cfg.defs && cfg.defs[n].publishTopic != "" && out != Absent
  }

  /** The next action of a call that stands at pc. */
  function Next(cfg: Config, s: State, pc: Pc, answer: HttpResult): Action
    requires cfg.Valid()
  {
    match pc
    case Creating(k) =>
      if k < |cfg.order| then Insert(cfg.order[k], Creating(k + 1)) else Move(Listing, None, None)
    case Listing => Move(AfterListing(s.rows), Some(Snapshot), None)
    case Looping(snap, j) =>
      if j >= |cfg.order| then Move(Done, None, None)
      else if ReadyIn(cfg, snap, cfg.order[j]) then TryClaim(cfg, s, snap, j)
      else Move(Looping(snap, j + 1), None, None)
    case Announcing(snap, j) =>
      Move(Looping(snap, j + 1), if j < |cfg.order| then Some(Notified(cfg.order[j])) else None, None)
    case Watching(snap, j) =>
      Move(Looping(snap, j + 1),
           if cfg.poller && j < |cfg.order| then Some(Watched(cfg.order[j])) else None, None)
    case Sending(n, input) => Move(AfterAnswer(n, answer), Some(Sent(n)), Some(AnswerFact(n, input, answer)))
    case Failing(n, error) => Fail(n, error, Listing)
    case Checking(n, out) =>
      if n in s.rows && s.rows[n].status.Waiting()
      then Move(Completing(n, out), Some(Accepted(n)), Some(AcceptFact(n, out)))
      else Move(Done, None, None)
    case Completing(n, out) => Complete(n, out, Publishing(n, out))
    case Publishing(n, out) =>
      if Publishes(cfg, n, out) then Move(Listing, Some(Published(n)), Some(PublishFact(n, out)))
      else Move(Listing, None, None)
    case Terminating(status) =>
      if s.inst.InstanceRunning? then End(status, Reporting(status)) else Move(Done, None, None)
    case Reporting(status) => Move(Done, Some(TerminalEvent), None)
    case Done => Move(Done, None, None)
  }

  function Apply(cfg: Config, s: State, l: Label): State
    requires cfg.Valid()
  {
    match l
    case Act(i, answer) => if i < |s.calls| then Perform(s, i, Next(cfg, s, s.calls[i], answer)) else s
    case Crash(i) => if i < |s.calls| then s.(calls := s.calls[i := Done]) else s
    case Trigger(n, out) =>
      s.(calls := s.calls + [Checking(n, out)], effects := s.effects + multiset{TriggerCall})
    case Tick(d) => s.(clock := s.clock + d)
  }

  /** The state after a run. */
  ghost function Exec(cfg: Config, s: State, ls: seq<Label>): State
    requires cfg.Valid()
  {
    if ls == [] then s else Apply(cfg, Exec(cfg, s, ls[..|ls| - 1]), ls[|ls| - 1])
  }

  /** The state after a run from StartInstance. */
  ghost function Reached(cfg: Config, ls: seq<Label>): State
    requires cfg.Valid()
  {
    Exec(cfg, Init(), ls)
  }

  ghost predicate CrashFree(ls: seq<Label>)
  {
    forall l :: l in ls ==> !l.Crash?
  }

  ghost predicate Quiescent(s: State)
  {
    forall i :: 0 <= i < |s.calls| ==> s.calls[i].Done?
  }
}
