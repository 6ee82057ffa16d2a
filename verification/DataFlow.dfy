/** Where inputs and outputs come from. The equations hold on every run in which at most one
    trigger is in flight per step, crashes included; and the last section says exactly when an
    overlapping trigger breaks them. */
module DataFlow {
  import opened Types
  import opened Protocol
  import opened Safety
  import opened Actions
  import opened Lifecycle

  // ---- At most one trigger in flight per step ----

  /** The manual or queueti step that a call is triggering. */
  function TriggerOf(cfg: Config, pc: Pc): Option<string>
  {
    if (pc.Checking? || pc.Completing?) && pc.n in cfg.defs && Activated(cfg.defs[pc.n].trigger)
    then Some(pc.n) else None
  }

  ghost predicate Admits(cfg: Config, s: State, l: Label)
  {
    l.Trigger? && l.n in cfg.defs && Activated(cfg.defs[l.n].trigger) ==>
      forall i :: 0 <= i < |s.calls| ==> TriggerOf(cfg, s.calls[i]) != Some(l.n)
  }

  /** TriggerStep is only called when no other call is triggering the same step. */
  ghost predicate Serialized(cfg: Config, s: State, ls: seq<Label>)
    requires cfg.Valid()
  {
    ls == [] ||
    (Serialized(cfg, s, ls[..|ls| - 1]) && Admits(cfg, Exec(cfg, s, ls[..|ls| - 1]), ls[|ls| - 1]))
  }

  /** What serialization gives in every state. */
  ghost predicate Orderly(cfg: Config, rows: Table, calls: seq<Pc>)
  {
    && (forall i, j :: 0 <= i < |calls| && 0 <= j < |calls| && i != j && TriggerOf(cfg, calls[i]).Some? ==>
          TriggerOf(cfg, calls[i]) != TriggerOf(cfg, calls[j]))
    && (forall i :: 0 <= i < |calls| && calls[i].Completing? && calls[i].n in rows ==>
          !rows[calls[i].n].status.Completed?)
  }

  /** No action starts triggering a step. */
  lemma NoNewTrigger(cfg: Config, s: State, pc: Pc, a: Action)
    requires cfg.Valid() && Fires(cfg, s, pc, a) && (pc.Sending? ==> RunsHttp(cfg, s.rows, pc.n))
    ensures TriggerOf(cfg, a.pc).Some? ==> TriggerOf(cfg, a.pc) == TriggerOf(cfg, pc)
  {
  }

  /** A call that gets to complete a step finds it not completed. */
  lemma FindsUncompleted(cfg: Config, s: State, pc: Pc, a: Action)
    requires cfg.Valid() && PcOk(cfg, s.rows, pc) && Fires(cfg, s, pc, a)
    requires a.pc.Completing? && a.pc.n in NextRows(s, a)
    ensures !NextRows(s, a)[a.pc.n].status.Completed?
  {
  }

  /** A call that completes a step completes no step that another call is about to complete. */
  lemma OthersUncompleted(cfg: Config, s: State, i: nat, a: Action, k: nat)
    requires cfg.Valid() && Inv(cfg, s) && Orderly(cfg, s.rows, s.calls) && i < |s.calls|
    requires Fires(cfg, s, s.calls[i], a)
    requires k < |s.calls| && k != i && s.calls[k].Completing? && s.calls[k].n in NextRows(s, a)
    ensures !NextRows(s, a)[s.calls[k].n].status.Completed?
  {
    assert PcOk(cfg, s.rows, s.calls[k]) && PcOk(cfg, s.rows, s.calls[i]);
    if a.Complete? {
      assert TriggerOf(cfg, s.calls[i]).Some? || Holds(cfg, s.calls[i]) == Work(a.n);
      assert s.calls[k].n != a.n;
    }
  }

  lemma OrderlyAction(cfg: Config, s: State, i: nat, a: Action)
    requires cfg.Valid() && Inv(cfg, s) && Orderly(cfg, s.rows, s.calls) && i < |s.calls|
    requires Fires(cfg, s, s.calls[i], a)
    ensures Orderly(cfg, NextRows(s, a), s.calls[i := a.pc])
  {
    var calls' := s.calls[i := a.pc];
    assert PcOk(cfg, s.rows, s.calls[i]);
    NoNewTrigger(cfg, s, s.calls[i], a);
    forall k | 0 <= k < |calls'| && calls'[k].Completing? && calls'[k].n in NextRows(s, a)
      ensures !NextRows(s, a)[calls'[k].n].status.Completed?
    {
      if k == i { FindsUncompleted(cfg, s, s.calls[i], a); } else { OthersUncompleted(cfg, s, i, a, k); }
    }
  }

  lemma KeepsOrderly(cfg: Config, s: State, l: Label)
    requires cfg.Valid() && Inv(cfg, s) && Orderly(cfg, s.rows, s.calls) && Admits(cfg, s, l)
    ensures var s' := Apply(cfg, s, l); Orderly(cfg, s'.rows, s'.calls)
  {
    if l.Act? && l.i < |s.calls| {
      NextFires(cfg, s, s.calls[l.i], l.answer);
      OrderlyAction(cfg, s, l.i, Next(cfg, s, s.calls[l.i], l.answer));
    }
  }

  lemma {:induction false} AlwaysOrderly(cfg: Config, ls: seq<Label>)
    requires cfg.Valid() && Serialized(cfg, Init(), ls)
    ensures Orderly(cfg, Reached(cfg, ls).rows, Reached(cfg, ls).calls)
  {
    if ls != [] {
      Always(cfg, ls[..|ls| - 1]);
      AlwaysOrderly(cfg, ls[..|ls| - 1]);
      KeepsOrderly(cfg, Reached(cfg, ls[..|ls| - 1]), ls[|ls| - 1]);
    }
  }

  // ---- Outputs are final ----

  /** Completed steps stay completed and keep their outputs. */
  ghost predicate OutputsKept(rows: Table, rows': Table)
  {
    forall n :: n in rows && rows[n].status.Completed? ==>
      n in rows' && rows'[n].status.Completed? && rows'[n].output == rows[n].output
  }

  /** Two tables that agree on the completed dependencies of a step give it the same input. */
  lemma InputAgrees(def: StepDef, rows: Table, rows': Table)
    requires DepsDone(def.deps, rows) && DepsDone(def.deps, rows')
    requires forall d :: d in def.deps ==> rows'[d].output == rows[d].output
    ensures StepInput(def, rows') == StepInput(def, rows)
  {
    var a, b := CompletedOutputs(rows), CompletedOutputs(rows');
    assert forall d :: d in def.deps ==> d in a && d in b && a[d] == b[d];
    var ma := map d | d in a && d in def.deps && a[d] != Absent :: a[d];
    var mb := map d | d in b && d in def.deps && b[d] != Absent :: b[d];
    assert ma == mb;
  }

  /** A step whose dependencies are completed keeps the input it computes. */
  lemma InputIsStable(def: StepDef, rows: Table, rows': Table)
    requires DepsDone(def.deps, rows) && OutputsKept(rows, rows')
    ensures StepInput(def, rows') == StepInput(def, rows)
  {
    InputAgrees(def, rows, rows');
  }

  // ---- The equations ----

  /** Step n's payload columns, given the facts of the run. */
  ghost predicate RowFlows(cfg: Config, rows: Table, facts: set<Fact>, n: string)
    requires n in rows && n in cfg.defs
  {
    var r := rows[n];
    && (!r.status.Pending? ==> r.input == StepInput(cfg.defs[n], rows))
    && (r.status.Completed? ==>
          match cfg.defs[n].trigger
          case Auto => r.output == r.input
          case Http => AnswerFact(n, r.input, Success(r.output)) in facts
          case _ => AcceptFact(n, r.output) in facts)
    && (r.status.Failed? ==> r.error != "" && AnswerFact(n, r.input, Failure(r.error)) in facts)
  }

  /** The payload that a call carries. */
  ghost predicate CallFlows(cfg: Config, rows: Table, facts: set<Fact>, pc: Pc)
  {
    match pc
    case Looping(snap, _) => OutputsKept(snap, rows)
    case Announcing(snap, _) => OutputsKept(snap, rows)
    case Watching(snap, _) => OutputsKept(snap, rows)
    case Sending(n, input) => n in rows && input == rows[n].input
    case Failing(n, e) => n in rows && AnswerFact(n, rows[n].input, Failure(e)) in facts
    case Completing(n, out) =>
      n in rows && n in cfg.defs &&
      (match cfg.defs[n].trigger
       case Auto => out == rows[n].input
       case Http => AnswerFact(n, rows[n].input, Success(out)) in facts
       case _ => AcceptFact(n, out) in facts)
    case _ => true
  }

  ghost predicate Flows(cfg: Config, s: State)
  {
    && (forall n :: n in s.rows && n in cfg.defs ==> RowFlows(cfg, s.rows, s.facts, n))
    && (forall i :: 0 <= i < |s.calls| ==> CallFlows(cfg, s.rows, s.facts, s.calls[i]))
  }

  /** What no action of another call touches: inputs once claimed, outputs, and facts. */
  ghost predicate PayloadsKept(rows: Table, rows': Table, facts: set<Fact>, facts': set<Fact>)
  {
    && OutputsKept(rows, rows')
    && facts <= facts'
    && (forall n :: n in rows && !rows[n].status.Pending? ==>
          n in rows' && rows'[n].input == rows[n].input && !rows'[n].status.Pending?)
  }

  /** A claimed row keeps its input, a completed row its output. */
  lemma RowKept(cfg: Config, s: State, pc: Pc, a: Action, n: string)
    requires cfg.Valid() && PcOk(cfg, s.rows, pc) && Fires(cfg, s, pc, a)
    requires a.Complete? ==> !s.rows[a.n].status.Completed?
    requires n in s.rows && !s.rows[n].status.Pending?
    ensures var rows' := NextRows(s, a);
            && n in rows' && rows'[n].input == s.rows[n].input && !rows'[n].status.Pending?
            && (s.rows[n].status.Completed? ==> rows'[n] == s.rows[n])
  {
  }

  lemma ActionKeepsPayloads(cfg: Config, s: State, i: nat, a: Action)
    requires cfg.Valid() && Inv(cfg, s) && Orderly(cfg, s.rows, s.calls) && i < |s.calls|
    requires Fires(cfg, s, s.calls[i], a)
    ensures PayloadsKept(s.rows, NextRows(s, a), s.facts, s.facts + Learned(a))
  {
    assert PcOk(cfg, s.rows, s.calls[i]);
    forall n | n in s.rows && !s.rows[n].status.Pending?
      ensures var rows' := NextRows(s, a);
              && n in rows' && rows'[n].input == s.rows[n].input && !rows'[n].status.Pending?
              && (s.rows[n].status.Completed? ==> rows'[n] == s.rows[n])
    {
      RowKept(cfg, s, s.calls[i], a, n);
    }
  }

  lemma CallFlowsKept(cfg: Config, rows: Table, rows': Table, facts: set<Fact>, facts': set<Fact>, pc: Pc)
    requires cfg.Valid() && PcOk(cfg, rows, pc) && CallFlows(cfg, rows, facts, pc)
    requires PayloadsKept(rows, rows', facts, facts')
    ensures CallFlows(cfg, rows', facts', pc)
  {
  }

  lemma AcceptedFlows(cfg: Config, s: State, n: string, out: Json, facts: set<Fact>)
    requires cfg.Valid() && RowsOk(cfg, s.rows) && n in s.rows && s.rows[n].status.Waiting()
    requires AcceptFact(n, out) in facts
    ensures CallFlows(cfg, s.rows, facts, Completing(n, out))
  {
    assert Along(cfg.defs[n].trigger, Pending, s.rows[n].status);
  }

  lemma MoveFlows(cfg: Config, s: State, pc: Pc, a: Action)
    requires cfg.Valid() && RowsOk(cfg, s.rows) && PcOk(cfg, s.rows, pc) && CallFlows(cfg, s.rows, s.facts, pc)
    requires Fires(cfg, s, pc, a) && a.Move?
    ensures CallFlows(cfg, s.rows, s.facts + Learned(a), a.pc)
  {
    if pc.Checking? && a.pc.Completing? { AcceptedFlows(cfg, s, pc.n, pc.out, s.facts + Learned(a)); }
  }

  lemma ClaimFlows(cfg: Config, s: State, pc: Pc, a: Action)
    requires cfg.Valid() && CallFlows(cfg, s.rows, s.facts, pc) && Fires(cfg, s, pc, a) && a.Claim?
    requires OutputsKept(s.rows, NextRows(s, a))
    ensures CallFlows(cfg, NextRows(s, a), s.facts + Learned(a), a.pc)
  {
    assert OutputsKept(pc.snap, NextRows(s, a));
  }

  lemma NextCallFlows(cfg: Config, s: State, pc: Pc, a: Action)
    requires cfg.Valid() && RowsOk(cfg, s.rows) && PcOk(cfg, s.rows, pc) && CallFlows(cfg, s.rows, s.facts, pc)
    requires Fires(cfg, s, pc, a)
    requires PayloadsKept(s.rows, NextRows(s, a), s.facts, s.facts + Learned(a))
    ensures CallFlows(cfg, NextRows(s, a), s.facts + Learned(a), a.pc)
  {
    if a.Move? {
      MoveFlows(cfg, s, pc, a);
    } else if a.Claim? {
      ClaimFlows(cfg, s, pc, a);
    }
  }

  /** Rows that the action does not write. */
  lemma RowFlowsKept(cfg: Config, rows: Table, rows': Table, facts: set<Fact>, facts': set<Fact>, n: string)
    requires cfg.Valid() && RowsOk(cfg, rows) && n in rows && n in rows' && n in cfg.defs
    requires RowFlows(cfg, rows, facts, n) && PayloadsKept(rows, rows', facts, facts')
    requires rows'[n] == rows[n]
    ensures RowFlows(cfg, rows', facts', n)
  {
    if !rows[n].status.Pending? {
      assert DepsDone(cfg.defs[n].deps, rows);
      InputIsStable(cfg.defs[n], rows, rows');
    }
  }

  lemma ClaimedRowFlows(cfg: Config, s: State, pc: Pc, a: Action)
    requires cfg.Valid() && RowsOk(cfg, s.rows) && PcOk(cfg, s.rows, pc) && Fires(cfg, s, pc, a) && a.Claim?
    requires CallFlows(cfg, s.rows, s.facts, pc)
    requires OutputsKept(s.rows, NextRows(s, a))
    ensures RowFlows(cfg, NextRows(s, a), s.facts, a.n)
  {
    StaleReady(cfg, pc.snap, s.rows, a.n);
    InputIsStable(cfg.defs[a.n], pc.snap, s.rows);
    InputIsStable(cfg.defs[a.n], s.rows, NextRows(s, a));
  }

  lemma UpdatedRowFlows(cfg: Config, s: State, pc: Pc, a: Action)
    requires cfg.Valid() && RowsOk(cfg, s.rows) && PcOk(cfg, s.rows, pc) && Fires(cfg, s, pc, a)
    requires a.Complete? || a.Fail?
    requires CallFlows(cfg, s.rows, s.facts, pc) && RowFlows(cfg, s.rows, s.facts, pc.n)
    requires PayloadsKept(s.rows, NextRows(s, a), s.facts, s.facts + Learned(a))
    ensures RowFlows(cfg, NextRows(s, a), s.facts + Learned(a), a.n)
  {
    assert DepsDone(cfg.defs[a.n].deps, s.rows);
    InputIsStable(cfg.defs[a.n], s.rows, NextRows(s, a));
  }

  lemma NextRowFlows(cfg: Config, s: State, i: nat, a: Action, n: string)
    requires cfg.Valid() && Inv(cfg, s) && Flows(cfg, s) && i < |s.calls| && Fires(cfg, s, s.calls[i], a)
    requires PayloadsKept(s.rows, NextRows(s, a), s.facts, s.facts + Learned(a))
    requires n in NextRows(s, a) && n in cfg.defs
    ensures RowFlows(cfg, NextRows(s, a), s.facts + Learned(a), n)
  {
    var pc := s.calls[i];
    assert PcOk(cfg, s.rows, pc) && CallFlows(cfg, s.rows, s.facts, pc);
    if n in s.rows && NextRows(s, a)[n] == s.rows[n] {
      RowFlowsKept(cfg, s.rows, NextRows(s, a), s.facts, s.facts + Learned(a), n);
    } else if a.Claim? {
      ClaimedRowFlows(cfg, s, pc, a);
    } else if !a.Insert? {
      UpdatedRowFlows(cfg, s, pc, a);
    }
  }

  lemma FlowsAction(cfg: Config, s: State, i: nat, a: Action)
    requires cfg.Valid() && Inv(cfg, s) && Orderly(cfg, s.rows, s.calls) && Flows(cfg, s) && i < |s.calls|
    requires Fires(cfg, s, s.calls[i], a)
    ensures Flows(cfg, Perform(s, i, a))
  {
    var s' := Perform(s, i, a);
    ActionKeepsPayloads(cfg, s, i, a);
    forall n | n in s'.rows && n in cfg.defs ensures RowFlows(cfg, s'.rows, s'.facts, n) {
      NextRowFlows(cfg, s, i, a, n);
    }
    forall k | 0 <= k < |s'.calls| ensures CallFlows(cfg, s'.rows, s'.facts, s'.calls[k]) {
      assert PcOk(cfg, s.rows, s.calls[k]) && CallFlows(cfg, s.rows, s.facts, s.calls[k]);
      if k == i {
        NextCallFlows(cfg, s, s.calls[i], a);
      } else {
        CallFlowsKept(cfg, s.rows, s'.rows, s.facts, s'.facts, s.calls[k]);
      }
    }
  }

  lemma KeepsFlows(cfg: Config, s: State, l: Label)
    requires cfg.Valid() && Inv(cfg, s) && Orderly(cfg, s.rows, s.calls) && Flows(cfg, s)
    ensures Flows(cfg, Apply(cfg, s, l))
  {
    if l.Act? && l.i < |s.calls| {
      NextFires(cfg, s, s.calls[l.i], l.answer);
      FlowsAction(cfg, s, l.i, Next(cfg, s, s.calls[l.i], l.answer));
    }
  }

  lemma {:induction false} AlwaysFlows(cfg: Config, ls: seq<Label>)
    requires cfg.Valid() && Serialized(cfg, Init(), ls)
    ensures Flows(cfg, Reached(cfg, ls))
  {
    if ls != [] {
      Always(cfg, ls[..|ls| - 1]);
      AlwaysOrderly(cfg, ls[..|ls| - 1]);
      AlwaysFlows(cfg, ls[..|ls| - 1]);
      KeepsFlows(cfg, Reached(cfg, ls[..|ls| - 1]), ls[|ls| - 1]);
    }
  }

  /** The output of a completed step. */
  function OutputOf(rows: Table, d: string): Json
  {
    if d in rows && rows[d].status.Completed? then rows[d].output else Absent
  }

  /** The object of exactly the non-empty outputs of the dependencies; absent if there are none. */
  ghost predicate Gathers(input: Json, deps: seq<string>, rows: Table)
  {
    if forall d :: d in deps ==> OutputOf(rows, d) == Absent then input == Absent
    else
      && input.Object?
      && (forall d :: d in input.fields <==> d in deps && OutputOf(rows, d) != Absent)
      && (forall d :: d in input.fields ==> input.fields[d] == OutputOf(rows, d))
  }

  lemma MergeGathers(deps: seq<string>, rows: Table)
    ensures Gathers(MergeOutputs(deps, CompletedOutputs(rows)), deps, rows)
  {
    var outputs := CompletedOutputs(rows);
    var merged := map d | d in outputs && d in deps && outputs[d] != Absent :: outputs[d];
    assert forall d :: d in merged <==> d in deps && OutputOf(rows, d) != Absent;
    if merged != map[] {
      var d :| d in merged;
      assert OutputOf(rows, d) != Absent;
    } else {
      assert forall d :: d in deps && OutputOf(rows, d) != Absent ==> d in merged;
    }
  }

  /** The data flow that the documentation promises. A claimed step's input is its static
      input if it has one, else the object of exactly its dependencies' non-empty outputs.
      A completed auto step's output is its input, an http step's is the answer to its input,
      any other step's was given by an accepted trigger; and a failed step's error is the
      message with which its request was answered. */
  lemma DataFlowEquation(cfg: Config, ls: seq<Label>, n: string)
    requires cfg.Valid() && Serialized(cfg, Init(), ls)
    requires n in cfg.defs && n in Reached(cfg, ls).rows && !Reached(cfg, ls).rows[n].status.Pending?
    ensures var s := Reached(cfg, ls); var r, def := s.rows[n], cfg.defs[n];
            && (if def.staticInput != Absent then r.input == def.staticInput else Gathers(r.input, def.deps, s.rows))
            && (r.status.Completed? ==>
                  match def.trigger
                  case Auto => r.output == r.input
                  case Http => AnswerFact(n, r.input, Success(r.output)) in s.facts
                  case _ => AcceptFact(n, r.output) in s.facts)
            && (r.status.Failed? ==> r.error != "" && AnswerFact(n, r.input, Failure(r.error)) in s.facts)
  {
    AlwaysFlows(cfg, ls);
    assert RowFlows(cfg, Reached(cfg, ls).rows, Reached(cfg, ls).facts, n);
    MergeGathers(cfg.defs[n].deps, Reached(cfg, ls).rows);
  }

  // ---- Overlapping triggers ----

  /** Every claimed step's input is what its dependencies' outputs make it. */
  ghost predicate InputsCurrent(cfg: Config, rows: Table)
  {
    forall m :: m in rows && m in cfg.defs && !rows[m].status.Pending? ==>
      rows[m].input == StepInput(cfg.defs[m], rows)
  }

  /** A claimed step has already consumed the output of n. */
  ghost predicate Consumed(cfg: Config, rows: Table, n: string)
  {
    exists m :: m in rows && m in cfg.defs && !rows[m].status.Pending?
             && n in cfg.defs[m].deps && cfg.defs[m].staticInput == Absent
  }

  lemma OverwriteBreaks(cfg: Config, rows: Table, n: string, r: Row, m: string)
    requires n in rows && rows[n].status.Completed? && r.status.Completed? && r.output != rows[n].output
    requires m in cfg.defs && n in cfg.defs[m].deps && cfg.defs[m].staticInput == Absent
    ensures StepInput(cfg.defs[m], rows[n := r]) != StepInput(cfg.defs[m], rows)
  {
    var a, b, deps := CompletedOutputs(rows), CompletedOutputs(rows[n := r]), cfg.defs[m].deps;
    var ma := map d | d in a && d in deps && a[d] != Absent :: a[d];
    var mb := map d | d in b && d in deps && b[d] != Absent :: b[d];
    assert (n in ma) == (rows[n].output != Absent) && (n in mb) == (r.output != Absent);
    if n in ma && n in mb { assert ma[n] != mb[n]; }
  }

  lemma OverwriteKeeps(cfg: Config, rows: Table, n: string, r: Row, m: string)
    requires n in rows && r.status.Completed? && m in cfg.defs
    requires n !in cfg.defs[m].deps || cfg.defs[m].staticInput != Absent
          || (rows[n].status.Completed? && r.output == rows[n].output)
    ensures StepInput(cfg.defs[m], rows[n := r]) == StepInput(cfg.defs[m], rows)
  {
    var a, b, deps := CompletedOutputs(rows), CompletedOutputs(rows[n := r]), cfg.defs[m].deps;
    var ma := map d | d in a && d in deps && a[d] != Absent :: a[d];
    var mb := map d | d in b && d in deps && b[d] != Absent :: b[d];
    if cfg.defs[m].staticInput == Absent { assert ma == mb; }
  }

  /** A trigger that is about to write keeps the inputs current if and only if the step is
      not completed yet, or it brings the output that is there, or no claimed step without a
      static input depends on it. */
  lemma OverlapExact(cfg: Config, s: State, i: nat, answer: HttpResult)
    requires cfg.Valid() && Inv(cfg, s) && InputsCurrent(cfg, s.rows)
    requires i < |s.calls| && s.calls[i].Completing?
    ensures var n, out := s.calls[i].n, s.calls[i].out;
            && n in s.rows
            && (InputsCurrent(cfg, Apply(cfg, s, Act(i, answer)).rows) <==>
                  !s.rows[n].status.Completed? || s.rows[n].output == out || !Consumed(cfg, s.rows, n))
  {
    var n, out := s.calls[i].n, s.calls[i].out;
    assert PcOk(cfg, s.rows, s.calls[i]);
    var r := UpdateRow(s.rows[n], Completed, out, "", s.clock);
    var rows' := s.rows[n := r];
    assert Apply(cfg, s, Act(i, answer)).rows == rows';
    if s.rows[n].status.Completed? && s.rows[n].output != out && Consumed(cfg, s.rows, n) {
      var m :| m in s.rows && m in cfg.defs && !s.rows[m].status.Pending?
            && n in cfg.defs[m].deps && cfg.defs[m].staticInput == Absent;
      OverwriteBreaks(cfg, s.rows, n, r, m);
      assert rows'[m].input == s.rows[m].input && !rows'[m].status.Pending?;
    } else {
      forall m | m in rows' && m in cfg.defs && !rows'[m].status.Pending?
        ensures rows'[m].input == StepInput(cfg.defs[m], rows')
      {
        assert DepsDone(cfg.defs[m].deps, s.rows);
        OverwriteKeeps(cfg, s.rows, n, r, m);
      }
    }
  }
}
