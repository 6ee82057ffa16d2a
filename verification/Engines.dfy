/** The engine of one node, statement by statement. Each method comes with the protocol call
    that it performs: `w` is the protocol's state when it starts and `c` the call; it returns
    the state `v` to which that call alone has led, mirrored by the database. */
module Engines {
  import opened Types
  import opened Protocol
  import opened Safety
  import opened DataFlow
  import opened FixedPoint
  import opened Definition
  import opened Storage
  import opened Registries
  import opened Refinement
  import opened Setup
  import opened Outcomes

  /** What claimAndDo runs after a won claim. */
  datatype OnWon = CompleteIt | SendIt

  datatype TriggerError = NoSuchStep | NotWaiting

  datatype Started = Started(id: nat, inst: Instance)

  method BuildCompletedSet(steps: seq<StepExecution>, ghost cfg: Config, ghost rows: Table)
    returns (m: map<string, Json>)
    requires cfg.Valid() && Full(cfg, rows) && |steps| == |cfg.order|
    requires forall j :: 0 <= j < |steps| ==> Shown(steps[j], cfg, rows, j)
    ensures m == CompletedOutputs(rows)
  {
    m := map[];
    var i := 0;
    while i < |steps|
      invariant 0 <= i <= |steps|
      invariant m == OutputsAmong(cfg.order[..i], rows)
    {
      assert Shown(steps[i], cfg, rows, i);
      OneMoreOutput(cfg.order, i, rows);
      if steps[i].row.status.Completed? { m := m[steps[i].name := steps[i].row.output]; }
      i := i + 1;
    }
    assert cfg.order[..i] == cfg.order;
  }

  method WorkflowState(steps: seq<StepExecution>, ghost cfg: Config, ghost rows: Table)
    returns (allDone: bool, anyFailed: bool)
    requires cfg.Valid() && Full(cfg, rows) && |steps| == |cfg.order|
    requires forall j :: 0 <= j < |steps| ==> Shown(steps[j], cfg, rows, j)
    ensures allDone <==> AllFinished(rows)
    ensures anyFailed <==> AnyFailed(rows)
  {
    allDone, anyFailed := true, false;
    var i := 0;
    while i < |steps|
      invariant 0 <= i <= |steps|
      invariant anyFailed <==> exists n :: n in cfg.order[..i] && n in rows && rows[n].status.Failed?
      invariant allDone <==> forall n :: n in cfg.order[..i] && n in rows ==> rows[n].status.Completed? || rows[n].status.Failed?
    {
      assert cfg.order[..i + 1] == cfg.order[..i] + [cfg.order[i]];
      assert Shown(steps[i], cfg, rows, i);
      if steps[i].row.status.Failed? { anyFailed := true; }
      if !steps[i].row.status.Completed? && !steps[i].row.status.Failed? { allDone := false; }
      i := i + 1;
    }
    assert cfg.order[..i] == cfg.order;
  }

  method DepsCompleted(deps: seq<string>, completed: map<string, Json>) returns (r: bool)
    ensures r <==> forall d :: d in deps ==> d in completed
  {
    var i := 0;
    while i < |deps|
      invariant 0 <= i <= |deps|
      invariant forall k :: 0 <= k < i ==> deps[k] in completed
    {
      if deps[i] !in completed { return false; }
      i := i + 1;
    }
    return true;
  }

  /** A JSON object of the listed dependencies' non-empty outputs, or nothing. */
  method MergeDeps(deps: seq<string>, outputs: map<string, Json>) returns (r: Json)
    ensures r == MergeOutputs(deps, outputs)
  {
    if |deps| == 0 { return Absent; }
    var merged: map<string, Json> := map[];
    var i := 0;
    while i < |deps|
      invariant 0 <= i <= |deps|
      invariant merged == map d | d in outputs && d in deps[..i] && outputs[d] != Absent :: outputs[d]
    {
      assert deps[..i + 1] == deps[..i] + [deps[i]];
      if deps[i] in outputs && outputs[deps[i]] != Absent { merged := merged[deps[i] := outputs[deps[i]]]; }
      i := i + 1;
    }
    assert deps[..i] == deps;
    if |merged| == 0 { return Absent; }
    return Object(merged);
  }

  class Engine {
    const repo: Repository
    const registry: Registry
    const poller: bool
    var sent: seq<Outgoing>
    ghost var worlds: map<nat, World>

    ghost function Db(): View
      reads this`sent, repo
    {
      View(repo.instances, repo.steps, repo.clock, sent)
    }

    /** Each stored instance is what some lawful run of the protocol has led to. */
    ghost predicate Valid()
      reads this`sent, this`worlds, repo
    {
      AllRest(Db(), worlds, poller)
    }

    constructor (repo: Repository, registry: Registry, poller: bool)
      requires repo.instances == map[] && repo.steps == map[]
      ensures this.repo == repo && this.registry == registry && this.poller == poller
      ensures Valid() && sent == []
    {
      this.repo, this.registry, this.poller, sent, worlds := repo, registry, poller, [], map[];
    }

    /** Call k works on instance id, with this engine's poller. */
    ghost predicate Works(k: Call, id: nat)
    {
      k.Valid() && k.cfg.poller == poller && k.id == id
    }

    /** Call k stands at pc in the protocol's state w, which the database shows. */
    ghost predicate Stands(k: Call, w: State, pc: Pc)
      reads this`sent, repo
    {
      k.At(Db(), w, pc)
    }

    method Emit(id: nat, effect: Effect, kind: string, payload: Json, answer: Option<HttpResult>)
      modifies this`sent
      ensures sent == old(sent) + [Outgoing(id, effect, kind, payload, answer)]
    {
      sent := sent + [Outgoing(id, effect, kind, payload, answer)];
    }

    /** CreateInstance and CreateSteps. A loaded definition has distinct names. */
    method Create(steps: seq<StepSpec>, workflow: string, input: Json) returns (id: nat)
      requires Startable(steps, poller)
      modifies repo`instances, repo`steps
      ensures id !in old(repo.instances) && repo.clock == old(repo.clock)
      ensures repo.instances == old(repo.instances)[id := Instance(workflow, InstanceRunning, input)]
      ensures var cfg := ConfigOf(steps, poller);
              repo.steps == old(repo.steps)[id := Steps(cfg.order, cfg.defs, FreshTable(cfg.order))]
    {
      id := repo.CreateInstance(workflow, input);
      var ok, _ := repo.CreateSteps(id, NewSteps(steps));
      assert ok;
    }

    method TryTerminateInstance(id: nat, status: InstanceStatus, event: string, ghost k: Call, ghost w: State)
      returns (ghost v: State)
      requires Works(k, id) && Stands(k, w, Terminating(status)) && Announces(event, status)
      modifies this`sent, repo`instances, repo`steps, repo`clock
      ensures Stands(k, v, Done) && v.rows == w.rows
    {
      ghost var db := Db();
      var won := repo.ClaimInstanceTerminal(id, status);
      if won {
        v := Ended(k, db, w, status);
        Emit(id, TerminalEvent, event, Absent, None);
        v := Loud(k, Db().(sent := db.sent), v, Reporting(status), NO_ANSWER,
                  Outgoing(id, TerminalEvent, event, Absent, None));
      } else {
        v := Quiet(k, db, w, Terminating(status), Db());
      }
    }

    /** Tries to terminate an instance in which a step has failed or all have finished. */
    method Conclude(id: nat, allDone: bool, anyFailed: bool, ghost k: Call, ghost w: State, ghost snap: Table)
      returns (over: bool, ghost v: State)
      requires Works(k, id) && Stands(k, w, AfterListing(snap))
      requires (allDone <==> AllFinished(snap)) && (anyFailed <==> AnyFailed(snap))
      modifies this`sent, repo`instances, repo`steps, repo`clock
      ensures v.rows == w.rows && Stands(k, v, if over then Done else Looping(snap, 0))
    {
      if anyFailed {
        v := TryTerminateInstance(id, InstanceFailed, INSTANCE_FAILED, k, w);
        return true, v;
      }
      if allDone {
        v := TryTerminateInstance(id, InstanceCompleted, INSTANCE_COMPLETED, k, w);
        return true, v;
      }
      return false, w;
    }

    /** Takes a snapshot of the steps. */
    method Inspect(id: nat, ghost k: Call, ghost w: State)
      returns (steps: seq<StepExecution>, completed: map<string, Json>, allDone: bool, anyFailed: bool, ghost v: State)
      requires Works(k, id) && Stands(k, w, Listing)
      ensures Stands(k, v, AfterListing(w.rows)) && v.rows == w.rows
      ensures |steps| == |k.cfg.order| && forall j :: 0 <= j < |steps| ==> Shown(steps[j], k.cfg, w.rows, j)
      ensures completed == CompletedOutputs(w.rows)
      ensures (allDone <==> AllFinished(w.rows)) && (anyFailed <==> AnyFailed(w.rows))
    {
      steps := repo.ListSteps(id);
      AllListed(steps, Db(), id, k.cfg, w);
      v := Quiet(k, Db(), w, Listing, Db());
      completed := BuildCompletedSet(steps, k.cfg, w.rows);
      allDone, anyFailed := WorkflowState(steps, k.cfg, w.rows);
    }

    /** ClaimStep on step j of the snapshot. */
    method Claim(id: nat, name: string, status: Status, input: Json, ghost k: Call, ghost w: State,
                 ghost snap: Table, ghost j: nat)
      returns (won: bool, ghost v: State)
      requires Works(k, id) && Stands(k, w, Looping(snap, j))
      requires j < |k.cfg.order| && name == k.cfg.order[j] && ReadyIn(k.cfg, snap, name)
      requires status == ClaimStatus(k.cfg.defs[name].trigger) && input == StepInput(k.cfg.defs[name], snap)
      modifies repo`steps, repo`clock
      ensures Stands(k, v, if won then AfterClaim(k.cfg.defs[name].trigger, snap, j, name, input) else Looping(snap, j + 1))
      ensures if won then PendingCount(v.rows) < PendingCount(w.rows) else v.rows == w.rows
    {
      ghost var db := Db();
      won := repo.ClaimStep(id, name, status, input);
      if won {
        v := ClaimWon(k, db, w, snap, j, Db());
      } else {
        v := Quiet(k, db, w, Looping(snap, j), Db());
      }
    }

    /** Notifies or registers with the poller, after a won claim. */
    method Report(id: nat, effect: Effect, kind: string, ghost k: Call, ghost w: State, ghost pc: Pc)
    returns (ghost v: State)
      requires Works(k, id) && Stands(k, w, pc) && (pc.Announcing? || (pc.Watching? && poller))
      requires pc.j < |k.cfg.order|
      requires effect == if pc.Announcing? then Notified(k.cfg.order[pc.j]) else Watched(k.cfg.order[pc.j])
      requires pc.Announcing? ==> kind == STEP_WAITING_MANUAL
      modifies this`sent
      ensures Stands(k, v, Looping(pc.snap, pc.j + 1)) && v.rows == w.rows
    {
      ghost var db := Db();
      Emit(id, effect, kind, Absent, None);
      v := Loud(k, db, w, pc, NO_ANSWER, Outgoing(id, effect, kind, Absent, None));
    }

    method Announce(id: nat, name: string, ghost k: Call, ghost w: State, ghost snap: Table, ghost j: nat)
      returns (ghost v: State)
      requires Works(k, id) && Stands(k, w, Announcing(snap, j)) && j < |k.cfg.order| && name == k.cfg.order[j]
      modifies this`sent
      ensures Stands(k, v, Looping(snap, j + 1)) && v.rows == w.rows
    {
      v := Report(id, Notified(name), STEP_WAITING_MANUAL, k, w, Announcing(snap, j));
    }

    method ActivateManual(id: nat, name: string, input: Json, ghost k: Call, ghost w: State, ghost snap: Table,
                          ghost j: nat)
      returns (ghost v: State)
      requires Works(k, id) && Stands(k, w, Looping(snap, j))
      requires j < |k.cfg.order| && name == k.cfg.order[j] && ReadyIn(k.cfg, snap, name)
      requires k.cfg.defs[name].trigger.Manual? && input == StepInput(k.cfg.defs[name], snap)
      modifies this`sent, repo`instances, repo`steps, repo`clock
      ensures Stands(k, v, Looping(snap, j + 1))
      ensures PendingCount(v.rows) <= PendingCount(w.rows)
    {
      var won;
      won, v := Claim(id, name, WaitingManual, input, k, w, snap, j);
      if won {
        v := Announce(id, name, k, v, snap, j);
        assert Stands(k, v, Looping(snap, j + 1));
      } else {
        assert Stands(k, v, Looping(snap, j + 1));
      }
    }

    /** Registers with the poller, if there is one. */
    method Register(id: nat, name: string, ghost k: Call, ghost w: State, ghost snap: Table, ghost j: nat)
      returns (ghost v: State)
      requires Works(k, id) && Stands(k, w, Watching(snap, j)) && j < |k.cfg.order| && name == k.cfg.order[j]
      modifies this`sent
      ensures Stands(k, v, Looping(snap, j + 1)) && v.rows == w.rows
    {
      if poller {
        v := Report(id, Watched(name), "", k, w, Watching(snap, j));
      } else {
        v := Quiet(k, Db(), w, Watching(snap, j), Db());
      }
    }

    method ActivateQueueTi(id: nat, name: string, input: Json, ghost k: Call, ghost w: State, ghost snap: Table,
                           ghost j: nat)
      returns (ghost v: State)
      requires Works(k, id) && Stands(k, w, Looping(snap, j))
      requires j < |k.cfg.order| && name == k.cfg.order[j] && ReadyIn(k.cfg, snap, name)
      requires k.cfg.defs[name].trigger.QueueTi? && input == StepInput(k.cfg.defs[name], snap)
      modifies this`sent, repo`instances, repo`steps, repo`clock
      ensures Stands(k, v, Looping(snap, j + 1))
      ensures PendingCount(v.rows) <= PendingCount(w.rows)
    {
      var won;
      won, v := Claim(id, name, WaitingQueueTi, input, k, w, snap, j);
      if won {
        v := Register(id, name, k, v, snap, j);
        assert Stands(k, v, Looping(snap, j + 1));
      } else {
        assert Stands(k, v, Looping(snap, j + 1));
      }
    }

    /** The write of completeStep. */
    method WriteCompleted(id: nat, name: string, out: Json, ghost k: Call, ghost w: State) returns (ghost v: State)
      requires Works(k, id) && Stands(k, w, Completing(name, out)) && name in w.rows
      modifies repo`steps, repo`clock
      ensures Stands(k, v, Publishing(name, out))
      ensures exists now :: v.rows == w.rows[name := UpdateRow(w.rows[name], Completed, out, "", now)]
    {
      ghost var db := Db();
      repo.UpdateStepStatus(id, name, Completed, out, "");
      v := Completes(k, db, w, name, out, Db());
    }

    method CompleteStep(id: nat, name: string, out: Json, ghost k: Call, ghost w: State)
      returns (ghost v: State)
      requires Works(k, id) && Stands(k, w, Completing(name, out)) && name in w.rows
      modifies this`sent, repo`instances, repo`steps, repo`clock
      ensures Stands(k, v, Listing)
      ensures exists now :: v.rows == w.rows[name := UpdateRow(w.rows[name], Completed, out, "", now)]
    {
      var step := repo.GetStep(id, name);
      v := WriteCompleted(id, name, out, k, w);
      if step.value.def.publishTopic != "" && out != Absent {
        ghost var db1 := Db();
        Emit(id, Published(name), step.value.def.publishTopic, out, None);
        v := Loud(k, db1, v, Publishing(name, out), NO_ANSWER,
                  Outgoing(id, Published(name), step.value.def.publishTopic, out, None));
      } else {
        v := Quiet(k, Db(), v, Publishing(name, out), Db());
      }
    }

    method FailAndAdvance(id: nat, name: string, message: ErrorText, ghost k: Call, ghost w: State)
    returns (ghost v: State)
      requires Works(k, id) && Stands(k, w, Failing(name, message)) && name in w.rows
      modifies this`sent, repo`instances, repo`steps, repo`clock
      ensures Stands(k, v, Done)
      decreases PendingCount(w.rows), 4
    {
      ghost var db := Db();
      repo.UpdateStepStatus(id, name, Failed, Absent, message);
      v := Fails(k, db, w, name, message, Db());
      NoMorePending(w.rows, name, UpdateRow(w.rows[name], Failed, Absent, message, repo.clock));
      v := Advance(id, k, v);
    }

    /** Sends the request. The answer may be anything. */
    method ExecuteHttpStep(id: nat, name: string, input: Json, ghost k: Call, ghost w: State)
      returns (answer: HttpResult, ghost v: State)
      requires Works(k, id) && Stands(k, w, Sending(name, input))
      modifies this`sent
      ensures Stands(k, v, AfterAnswer(name, answer)) && v.rows == w.rows
    {
      ghost var db := Db();
      answer :| true;
      Emit(id, Sent(name), "", input, Some(answer));
      ghost var o := Outgoing(id, Sent(name), "", input, Some(answer));
      assert AnswerFact(name, input, answer) in Learned(NextAt(k.cfg, w, k.c, db.now, answer));
      v := Loud(k, db, w, Sending(name, input), answer, o);
    }

    method SendAndAdvance(id: nat, name: string, input: Json, ghost k: Call, ghost w: State) returns (ghost v: State)
      requires Works(k, id) && Stands(k, w, Sending(name, input)) && name in w.rows
      modifies this`sent, repo`instances, repo`steps, repo`clock
      ensures Stands(k, v, Done)
      decreases PendingCount(w.rows), 5
    {
      var answer;
      answer, v := ExecuteHttpStep(id, name, input, k, w);
      match answer
      case Failure(message) => v := FailAndAdvance(id, name, message, k, v);
      case Success(out) => v := CompleteAndAdvance(id, name, out, k, v);
    }

    method ClaimAndDo(id: nat, name: string, status: Status, input: Json, onWon: OnWon, ghost k: Call, ghost w: State,
                      ghost snap: Table, ghost j: nat)
      returns (won: bool, ghost v: State)
      requires Works(k, id) && Stands(k, w, Looping(snap, j))
      requires j < |k.cfg.order| && name == k.cfg.order[j] && ReadyIn(k.cfg, snap, name)
      requires status == ClaimStatus(k.cfg.defs[name].trigger) && input == StepInput(k.cfg.defs[name], snap)
      requires k.cfg.defs[name].trigger == if onWon.CompleteIt? then Auto else Http
      modifies this`sent, repo`instances, repo`steps, repo`clock
      ensures Stands(k, v, if won then Done else Looping(snap, j + 1))
      ensures !won ==> v.rows == w.rows
      decreases PendingCount(w.rows), 0
    {
      won, v := Claim(id, name, status, input, k, w, snap, j);
      if !won { return; }
      match onWon
      case CompleteIt => v := CompleteAndAdvance(id, name, input, k, v);
      case SendIt => v := SendAndAdvance(id, name, input, k, v);
    }

    /** The activation of a ready step. Returns true when the loop is left. */
    method Activate(id: nat, s: StepExecution, input: Json, ghost k: Call, ghost w: State, ghost snap: Table,
                    ghost j: nat)
      returns (left: bool, ghost v: State)
      requires Works(k, id) && Stands(k, w, Looping(snap, j))
      requires Shown(s, k.cfg, snap, j) && ReadyIn(k.cfg, snap, s.name) && input == StepInput(s.def, snap)
      modifies this`sent, repo`instances, repo`steps, repo`clock
      ensures Stands(k, v, if left then Done else Looping(snap, j + 1))
      ensures !left ==> PendingCount(v.rows) <= PendingCount(w.rows)
      decreases PendingCount(w.rows), 1
    {
      left := false;
      match s.def.trigger
      case Manual => v := ActivateManual(id, s.name, input, k, w, snap, j);
      case Auto => left, v := ClaimAndDo(id, s.name, Running, input, CompleteIt, k, w, snap, j);
      case QueueTi => v := ActivateQueueTi(id, s.name, input, k, w, snap, j);
      case Http => left, v := ClaimAndDo(id, s.name, Running, input, SendIt, k, w, snap, j);
    }

    /** One round of the loop. Returns true when the loop is left. */
    method Visit(id: nat, s: StepExecution, completed: map<string, Json>, ghost k: Call, ghost w: State,
                 ghost snap: Table, ghost j: nat)
      returns (left: bool, ghost v: State)
      requires Works(k, id) && Stands(k, w, Looping(snap, j))
      requires Shown(s, k.cfg, snap, j) && completed == CompletedOutputs(snap)
      modifies this`sent, repo`instances, repo`steps, repo`clock
      ensures Stands(k, v, if left then Done else Looping(snap, j + 1))
      ensures !left ==> PendingCount(v.rows) <= PendingCount(w.rows)
      decreases PendingCount(w.rows), 2
    {
      var ready := DepsCompleted(s.def.deps, completed);
      if !s.row.status.Pending? || !ready {
        left := false;
        v := Quiet(k, Db(), w, Looping(snap, j), Db());
        return;
      }
      var input := MergeDeps(s.def.deps, completed);
      if s.def.staticInput != Absent { input := s.def.staticInput; }
      left, v := Activate(id, s, input, k, w, snap, j);
    }

    /** Inspects the steps and activates those whose dependencies are met. After a won claim
        of an auto or http step the recursive call has advanced everything else; after a lost
        one the loop goes on with its stale snapshot. Each recursion follows a won claim,
        which leaves fewer pending steps: so it ends on every table, also a cyclic one. */
    method Advance(id: nat, ghost k: Call, ghost w: State) returns (ghost v: State)
      requires Works(k, id) && Stands(k, w, Listing)
      modifies this`sent, repo`instances, repo`steps, repo`clock
      ensures Stands(k, v, Done)
      decreases PendingCount(w.rows), 3
    {
      ghost var snap := w.rows;
      var steps, completed, allDone, anyFailed;
      steps, completed, allDone, anyFailed, v := Inspect(id, k, w);
      var over;
      over, v := Conclude(id, allDone, anyFailed, k, v, snap);
      if over { return; }
      var i := 0;
      while i < |steps|
        invariant 0 <= i <= |steps|
        invariant Stands(k, v, Looping(snap, i))
        invariant PendingCount(v.rows) <= PendingCount(w.rows)
      {
        var left;
        left, v := Visit(id, steps[i], completed, k, v, snap, i);
        if left { return; }
        i := i + 1;
      }
      v := LoopEnds(k, Db(), v, snap, i);
    }

    method CompleteAndAdvance(id: nat, name: string, out: Json, ghost k: Call, ghost w: State) returns (ghost v: State)
      requires Works(k, id) && Stands(k, w, Completing(name, out)) && name in w.rows
      modifies this`sent, repo`instances, repo`steps, repo`clock
      ensures Stands(k, v, Done)
      decreases PendingCount(w.rows), 4
    {
      v := CompleteStep(id, name, out, k, w);
      ghost var now :| v.rows == w.rows[name := UpdateRow(w.rows[name], Completed, out, "", now)];
      NoMorePending(w.rows, name, UpdateRow(w.rows[name], Completed, out, "", now));
      v := Advance(id, k, v);
    }

    /** `advance` as the only call in flight on the node. */
    method AdvanceAlone(id: nat, ghost w: World, ghost c: nat) returns (ghost w': World)
      requires OthersRest(Db(), id, worlds, poller) && Alone(Db(), id, w, c, poller) && w.s.calls[c].Listing?
      modifies this`sent, repo`instances, repo`steps, repo`clock
      ensures AllRest(Db(), worlds[id := w'], poller) && w'.cfg == w.cfg && OutputsKept(w.s.rows, w'.s.rows)
      ensures Touches(old(Db()), id, Db()) && Concluded(Db(), id, CompletedSet(w.s.rows), poller)
      ensures repo.steps[id] == Steps(w.cfg.order, w.cfg.defs, w'.s.rows)
    {
      ghost var db := Db();
      Begins(db, id, w.cfg, w.s, c);
      ghost var v := Advance(id, CallOf(db, id, w.cfg, w.s, c), w.s);
      w' := RestsAgain(db, id, w, c, Db(), v, poller);
      AllRestAgain(db, id, Db(), w', worlds, poller);
    }

    method Start(steps: seq<StepSpec>, workflow: string, input: Json) returns (id: nat)
      requires Valid() && Startable(steps, poller)
      modifies this`sent, this`worlds, repo`instances, repo`steps, repo`clock
      ensures Valid() && old(repo.clock) <= repo.clock
      ensures IsNew(old(Db()), Db(), id, workflow, input, ConfigOf(steps, poller))
    {
      ghost var cfg, db := ConfigOf(steps, poller), Db();
      id := Create(steps, workflow, input);
      OthersStillRest(db, id, workflow, input, cfg, worlds, poller);
      CreatedReady(db, id, workflow, input, cfg, poller, worlds.Keys);
      ghost var w := AdvanceAlone(id, NewWorld(cfg), 0);
      worlds := worlds[id := w];
      NewConcludes(db, Db(), id, workflow, input, cfg);
    }

    /** Creates an instance of a loaded workflow and activates what is ready. */
    method StartInstance(workflow: string, input: Json) returns (r: Option<Started>)
      requires Valid() && registry.Valid()
      modifies this`sent, this`worlds, repo`instances, repo`steps, repo`clock
      ensures Valid() && old(repo.clock) <= repo.clock
      ensures r.Some? <==> workflow in registry.definitions
      ensures r.None? ==> Db() == old(Db())
      ensures r.Some? ==>
                && r.value.id in repo.instances && r.value.inst == repo.instances[r.value.id]
                && IsNew(old(Db()), Db(), r.value.id, workflow, input,
                         ConfigOf(registry.definitions[workflow].steps, poller))
                && RunsDefinition(r.value.id, registry.definitions[workflow].steps, repo.steps[r.value.id], sent, poller)
    {
      var def := registry.Get(workflow);
      if def.None? { return None; }
      LoadedStartable(def.value, registry.parsers, poller);
      ghost var db := Db();
      var id := Start(def.value.steps, workflow, input);
      LoadedReady(def.value, registry.parsers);
      DefinitionRuns(db, Db(), id, workflow, input, def.value.steps, registry.parsers, poller);
      var inst := repo.GetInstance(id);
      r := Some(Started(id, inst.value));
    }

    /** `completeStep` as the only call in flight on the node. */
    method CompleteAlone(id: nat, name: string, out: Json, ghost w: World, ghost c: nat) returns (ghost w': World)
      requires Alone(Db(), id, w, c, poller) && w.s.calls[c] == Completing(name, out) && name in w.s.rows
      modifies this`sent, repo`instances, repo`steps, repo`clock
      ensures Touches(old(Db()), id, Db())
      ensures Alone(Db(), id, w', c, poller) && w'.s.calls[c].Listing?
      ensures w'.cfg == w.cfg && CompletedIn(w.s.rows, name, out, w'.s.rows)
    {
      ghost var db := Db();
      Begins(db, id, w.cfg, w.s, c);
      ghost var s := CompleteStep(id, name, out, CallOf(db, id, w.cfg, w.s, c), w.s);
      ghost var now :| s.rows == w.s.rows[name := UpdateRow(w.s.rows[name], Completed, out, "", now)];
      OneMoreCompleted(w.s.rows, name, out, now);
      w' := GoesOn(db, id, w, c, poller, Db(), s, Listing);
    }

    /** The rest of TriggerStep as the only call in flight on the node. */
    method TriggerAlone(id: nat, name: string, out: Json, ghost w: World, ghost c: nat) returns (ghost w': World)
      requires Alone(Db(), id, w, c, poller) && w.s.calls[c] == Completing(name, out)
      requires name in w.s.rows && !w.s.rows[name].status.Completed?
      requires id in worlds && OthersRest(Db(), id, worlds, poller)
      modifies this`sent, repo`instances, repo`steps, repo`clock
      ensures AllRest(Db(), worlds[id := w'], poller)
      ensures Touches(old(Db()), id, Db()) && Concluded(Db(), id, CompletedSet(w.s.rows) + {name}, poller)
      ensures repo.steps[id] == Steps(w.cfg.order, w.cfg.defs, w'.s.rows)
      ensures name in w'.s.rows && w'.s.rows[name].status.Completed? && w'.s.rows[name].output == out
      ensures OutputsKept(w.s.rows, w'.s.rows)
    {
      ghost var db := Db();
      ghost var u := CompleteAlone(id, name, out, w, c);
      ghost var db1 := Db();
      OthersGoOnResting(db, id, db1, worlds, poller);
      w' := AdvanceAlone(id, u, c);
      TouchesTransitive(db, db1, Db(), id);
    }

    method TriggerWaiting(id: nat, name: string, out: Json)
      requires Valid() && id in worlds
      requires name in worlds[id].s.rows && worlds[id].s.rows[name].status.Waiting()
      modifies this`sent, this`worlds, repo`instances, repo`steps, repo`clock
      ensures Valid()
      ensures IsTriggered(old(Db()), Db(), id, name, out, poller)
    {
      ghost var db, w, c := Db(), worlds[id], |worlds[id].s.calls|;
      ghost var w1 := WaitingBegins(db, id, worlds, name, out, poller);
      ghost var w2 := TriggerAlone(id, name, out, w1, c);
      ghost var db' := Db();
      TriggerConcludes(db, id, w, name, out, db', w2.s);
      worlds := worlds[id := w2];
      assert Db() == db';
    }

    /** Completes a waiting step with the given output and advances the instance. */
    method TriggerStep(id: nat, name: string, out: Json) returns (e: Option<TriggerError>)
      requires Valid()
      modifies this`sent, this`worlds, repo`instances, repo`steps, repo`clock
      ensures Valid()
      ensures e == (if !(id in old(repo.steps) && name in old(repo.steps)[id].rows) then Some(NoSuchStep)
                    else if !old(repo.steps)[id].rows[name].status.WaitingManual?
                         && !old(repo.steps)[id].rows[name].status.WaitingQueueTi? then Some(NotWaiting)
                    else None)
      ensures e.Some? ==> Db() == old(Db())
      ensures e.None? ==> IsTriggered(old(Db()), Db(), id, name, out, poller)
    {
      LooksValid(Db(), id, worlds, poller);
      var step := repo.GetStep(id, name);
      if step.None? { return Some(NoSuchStep); }
      if !step.value.row.status.Waiting() {
        ghost var w := Rejected(Db(), id, worlds, poller, name, out);
        worlds := worlds[id := w];
        return Some(NotWaiting);
      }
      TriggerWaiting(id, name, out);
      return None;
    }
  }

  /** What StartInstance makes of a step to which the file gives no trigger, or "manual": it
      waits for a person at most, who has then been notified once, and no request was sent. */
  lemma NoTriggerMeansManual(w: Workflow, loaded: Workflow, p: Parsers, id: nat, st: Steps, sent: seq<Outgoing>,
                             poller: bool, i: nat)
    requires FromFile(w, loaded, p) && RunsDefinition(id, loaded.steps, st, sent, poller)
    requires i < |w.steps| && w.steps[i].trigger in {"", "manual"}
    ensures var s := w.steps[i];
            && i < |st.order| && st.order[i] == s.name && s.name in st.rows && s.name in st.defs
            && (st.rows[s.name].status.Pending? || st.rows[s.name].status.WaitingManual?)
            && st.defs[s.name].deps == s.deps && st.defs[s.name].staticInput == s.input
            && SentFor(id, sent)[Sent(s.name)] == 0
            && SentFor(id, sent)[Notified(s.name)] == (if st.rows[s.name].status.Pending? then 0 else 1)
  {
    assert Defaulted(w.steps[i], loaded.steps[i], p) && StepRuns(id, loaded.steps[i], i, st, sent, poller);
  }
}
