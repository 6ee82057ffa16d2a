/** From a validated definition to the protocol: what CreateSteps stores is where it starts. */
module Setup {
  import opened Types
  import opened Protocol
  import opened Safety
  import opened Definition
  import opened Registries
  import opened Storage
  import opened Completion
  import opened DataFlow

  function TriggerTypeOf(trigger: string): TriggerType
    requires KnownTrigger(trigger)
  {
    if trigger == "manual" then Manual
    else if trigger == "auto" then Auto
    else if trigger == "queueti" then QueueTi
    else Http
  }

  /** The columns that CreateSteps stores for a step. */
  function NewStepOf(s: StepSpec): NewStep
    requires KnownTrigger(s.trigger)
  {
    NewStep(s.name, StepDef(TriggerTypeOf(s.trigger), s.deps, s.input, s.publishTopic))
  }

  function NewSteps(steps: seq<StepSpec>): (r: seq<NewStep>)
    requires forall s :: s in steps ==> KnownTrigger(s.trigger)
    ensures |r| == |steps| && forall i :: 0 <= i < |steps| ==> r[i] == NewStepOf(steps[i])
  {
    seq(|steps|, i requires 0 <= i < |steps| => NewStepOf(steps[i]))
  }

  /** What is fixed for an instance of the definition. */
  function ConfigOf(steps: seq<StepSpec>, poller: bool): Config
    requires forall s :: s in steps ==> KnownTrigger(s.trigger)
  {
    var st := AllInserted(NewSteps(steps), |steps|);
    Config(st.order, st.defs, poller)
  }

  function FreshTable(order: seq<string>): Table
  {
    map n | n in order :: FreshRow()
  }

  /** Step i of the definition is step i of the configuration. */
  predicate StoredStep(cfg: Config, s: StepSpec, i: nat)
    requires KnownTrigger(s.trigger)
  {
    && i < |cfg.order| && cfg.order[i] == s.name && s.name in cfg.defs
    && var def := cfg.defs[s.name];
       && def.deps == s.deps && def.staticInput == s.input && def.publishTopic == s.publishTopic
       && (def.trigger.Manual? <==> s.trigger == "manual") && (def.trigger.Auto? <==> s.trigger == "auto")
       && (def.trigger.QueueTi? <==> s.trigger == "queueti") && (def.trigger.Http? <==> s.trigger == "http")
  }

  lemma ConfigColumns(steps: seq<StepSpec>, p: Parsers, poller: bool)
    requires EngineReady(steps, p)
    ensures var cfg, added := ConfigOf(steps, poller), NewSteps(steps);
            && DistinctNames(added, |added|) && |cfg.order| == |steps|
            && (forall n :: n in cfg.order <==> n in cfg.defs)
            && (forall i :: 0 <= i < |steps| ==> StoredStep(cfg, steps[i], i))
            && AllInserted(added, |added|) == Steps(cfg.order, cfg.defs, FreshTable(cfg.order))
  {
    var cfg, added := ConfigOf(steps, poller), NewSteps(steps);
    AllInsertedFills(added, |added|);
    var st := AllInserted(added, |added|);
    forall i | 0 <= i < |steps| ensures StoredStep(cfg, steps[i], i) {
      assert FilledStep(st, added[i], i);
    }
    assert st.rows == FreshTable(cfg.order);
  }

  lemma KnownDependency(cfg: Config, steps: seq<StepSpec>, n: string, d: string)
    requires forall s :: s in steps ==> KnownTrigger(s.trigger)
    requires DepsOk(steps) && |cfg.order| == |steps| && n in cfg.order
    requires forall i :: 0 <= i < |steps| ==> StoredStep(cfg, steps[i], i)
    requires n in cfg.defs && d in cfg.defs[n].deps
    ensures d in cfg.defs
  {
    var i :| 0 <= i < |steps| && cfg.order[i] == n;
    assert StoredStep(cfg, steps[i], i);
    assert d in steps[i].deps && d in Names(steps);
    var j :| 0 <= j < |steps| && steps[j].name == d;
    assert StoredStep(cfg, steps[j], j);
  }

  /** A validated definition gives the protocol what it starts from: distinct steps in the
      order of the definition, each with the columns of its specification, dependencies that
      name steps, and a table of fresh rows. */
  lemma ValidatedConfig(steps: seq<StepSpec>, p: Parsers, poller: bool)
    requires EngineReady(steps, p)
    ensures var cfg, added := ConfigOf(steps, poller), NewSteps(steps);
            && cfg.Valid() && KnownDeps(cfg.defs) && DistinctNames(added, |added|)
            && |cfg.order| == |steps| && (forall i :: 0 <= i < |steps| ==> StoredStep(cfg, steps[i], i))
            && AllInserted(added, |added|) == Steps(cfg.order, cfg.defs, FreshTable(cfg.order))
  {
    var cfg := ConfigOf(steps, poller);
    ConfigColumns(steps, p, poller);
    forall i | 0 <= i < |cfg.order| ensures cfg.order[i] !in cfg.order[..i] {
      forall j | 0 <= j < i ensures cfg.order[j] != cfg.order[i] {
        assert StoredStep(cfg, steps[i], i) && StoredStep(cfg, steps[j], j);
      }
    }
    forall n, d | n in cfg.defs && d in cfg.defs[n].deps ensures d in cfg.defs {
      KnownDependency(cfg, steps, n, d);
    }
  }

  /** An automatic step that depends on itself. */
  function Loop(): StepSpec
  {
    StepSpec("a", "auto", ["a"], Absent, "", "", None)
  }

  /** Validation accepts a cyclic workflow. */
  lemma CycleAccepted(p: Parsers, poller: bool)
    ensures Acceptable("w", [], [Loop()], p) && EngineReady([Loop()], p)
    ensures !Acyclic(ConfigOf([Loop()], poller).defs)
  {
    assert Loop() in [Loop()];
    ValidationSuffices("w", [], [Loop()], p);
    ConfigColumns([Loop()], p, poller);
    var defs := ConfigOf([Loop()], poller).defs;
    assert StoredStep(ConfigOf([Loop()], poller), Loop(), 0);
    var p := ["a", "a"];
    assert DepPath(defs, p) by { assert p[1] in defs["a"].deps; }
    assert p[0] == p[1] && Revisits(defs, p);
    assert Doomed(defs, "a");
  }

  /** Instances of these steps can be created. */
  ghost predicate Startable(steps: seq<StepSpec>, poller: bool)
  {
    && (forall s :: s in steps ==> KnownTrigger(s.trigger))
    && var cfg, added := ConfigOf(steps, poller), NewSteps(steps);
       && cfg.Valid() && DistinctNames(added, |added|)
       && AllInserted(added, |added|) == Steps(cfg.order, cfg.defs, FreshTable(cfg.order))
  }

  lemma LoadedReady(w: Workflow, p: Parsers)
    requires Normalised(w, p)
    ensures EngineReady(w.steps, p)
  {
    ValidationSuffices(w.name, w.triggers, w.steps, p);
  }

  lemma LoadedStartable(w: Workflow, p: Parsers, poller: bool)
    requires Normalised(w, p)
    ensures Startable(w.steps, poller)
  {
    LoadedReady(w, p);
    ValidatedConfig(w.steps, p, poller);
  }

  // ---- CreateSteps as a run ----

  /** The first k rows are inserted. */
  function Inserting(cfg: Config, k: nat): State
    requires k <= |cfg.order|
  {
    State(FreshTable(cfg.order[..k]), InstanceRunning, [Creating(k)], 0, multiset{}, {}, [])
  }

  /** All rows are inserted and the first `advance` begins. */
  function Created(cfg: Config): State
  {
    State(FreshTable(cfg.order), InstanceRunning, [Listing], 0, multiset{}, {}, [])
  }

  /** The labels lead to the state, without crashes and without triggering a step twice at a time. */
  ghost predicate LeadsTo(cfg: Config, ls: seq<Label>, s: State)
    requires cfg.Valid()
  {
    CrashFree(ls) && Serialized(cfg, Init(), ls) && Reached(cfg, ls) == s
  }

  ghost predicate RunTo(cfg: Config, ls: seq<Label>, k: nat, s: State)
    requires cfg.Valid()
  {
    k == |ls| ==> LeadsTo(cfg, ls, s)
  }

  /** The same, in a form that the verifier unfolds only where a proof asks for its length. */
  ghost predicate Run(cfg: Config, ls: seq<Label>, s: State)
    requires cfg.Valid()
  {
    forall k: nat :: RunTo(cfg, ls, k, s)
  }

  lemma RunLeads(cfg: Config, ls: seq<Label>, s: State)
    requires cfg.Valid() && Run(cfg, ls, s)
    ensures LeadsTo(cfg, ls, s)
  {
    assert RunTo(cfg, ls, |ls|, s);
  }

  lemma RunOn(cfg: Config, ls: seq<Label>, s: State, l: Label)
    requires cfg.Valid() && Run(cfg, ls, s) && !l.Crash? && Admits(cfg, s, l)
    ensures Run(cfg, ls + [l], Apply(cfg, s, l))
  {
    RunLeads(cfg, ls, s);
    assert (ls + [l])[..|ls + [l]| - 1] == ls;
    assert LeadsTo(cfg, ls + [l], Apply(cfg, s, l));
  }

  /** Stands in where no answer is awaited. */
  const NO_ANSWER := Success(Absent)

  /** The first k actions of a StartInstance call. */
  function Inserts(k: nat): seq<Label>
  {
    if k == 0 then [] else Inserts(k - 1) + [Act(0, NO_ANSWER)]
  }

  lemma InsertingOneMore(cfg: Config, k: nat)
    requires cfg.Valid() && k < |cfg.order|
    ensures Apply(cfg, Inserting(cfg, k), Act(0, NO_ANSWER)) == Inserting(cfg, k + 1)
  {
    assert cfg.order[..k + 1] == cfg.order[..k] + [cfg.order[k]];
    assert FreshTable(cfg.order[..k + 1]) == FreshTable(cfg.order[..k])[cfg.order[k] := FreshRow()];
  }

  lemma {:induction false} InsertingRun(cfg: Config, k: nat)
    requires cfg.Valid() && k <= |cfg.order|
    ensures Run(cfg, Inserts(k), Inserting(cfg, k))
    decreases k
  {
    if k > 0 {
      InsertingRun(cfg, k - 1);
      RunOn(cfg, Inserts(k - 1), Inserting(cfg, k - 1), Act(0, NO_ANSWER));
      InsertingOneMore(cfg, k - 1);
    } else {
      assert FreshTable(cfg.order[..0]) == map[];
    }
  }

  /** CreateSteps on a validated definition leads to a state from which the protocol's
      invariant holds and `advance` may begin. */
  lemma CreatedRun(cfg: Config)
    requires cfg.Valid()
    ensures Run(cfg, Inserts(|cfg.order| + 1), Created(cfg))
    ensures Inv(cfg, Created(cfg)) && Full(cfg, Created(cfg).rows)
  {
    var k := |cfg.order|;
    InsertingRun(cfg, k);
    RunOn(cfg, Inserts(k), Inserting(cfg, k), Act(0, NO_ANSWER));
    assert cfg.order[..k] == cfg.order;
    assert Apply(cfg, Inserting(cfg, k), Act(0, NO_ANSWER)) == Created(cfg);
    assert Inserts(k + 1) == Inserts(k) + [Act(0, NO_ANSWER)];
    RunLeads(cfg, Inserts(k + 1), Created(cfg));
    Always(cfg, Inserts(k + 1));
  }
}
