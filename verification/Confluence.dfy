/** Confluence: with deterministic, succeeding HTTP and one trigger in flight per step, every
    interleaving on any number of nodes, in any step order, comes to rest with the same rows. */
module Confluence {
  import opened Types
  import opened Protocol
  import opened Safety
  import opened Actions
  import opened Lifecycle
  import opened Progress
  import opened DataFlow
  import opened Publishing
  import opened History

  /** Every HTTP answer so far was the success that h gives for that step and input. */
  ghost predicate AnswersFrom(h: (string, Json) -> Json, facts: set<Fact>)
  {
    forall n, input, answer :: AnswerFact(n, input, answer) in facts ==> answer == Success(h(n, input))
  }

  // ---- Accepted triggers are written ----

  ghost predicate ToComplete(calls: seq<Pc>, n: string, out: Json)
  {
    exists i :: 0 <= i < |calls| && calls[i] == Completing(n, out)
  }

  ghost predicate AcceptedWritten(s: State)
  {
    forall n, out :: AcceptFact(n, out) in s.facts ==> WriteFact(n, out) in s.facts || ToComplete(s.calls, n, out)
  }

  lemma AcceptSource(cfg: Config, s: State, pc: Pc, a: Action, n: string, out: Json)
    requires cfg.Valid() && Fires(cfg, s, pc, a)
    ensures AcceptFact(n, out) in Learned(a) ==> a.pc == Completing(n, out)
    ensures pc == Completing(n, out) ==> WriteFact(n, out) in Learned(a)
  {
  }

  lemma StillAccepted(cfg: Config, s: State, l: Label, n: string, out: Json)
    requires cfg.Valid() && AcceptedWritten(s) && !l.Crash?
    requires AcceptFact(n, out) in Apply(cfg, s, l).facts
    ensures WriteFact(n, out) in Apply(cfg, s, l).facts || ToComplete(Apply(cfg, s, l).calls, n, out)
  {
    var s' := Apply(cfg, s, l);
    if l.Act? && l.i < |s.calls| {
      var a := Next(cfg, s, s.calls[l.i], l.answer);
      NextFires(cfg, s, s.calls[l.i], l.answer);
      AcceptSource(cfg, s, s.calls[l.i], a, n, out);
      assert s'.calls[l.i] == a.pc;
    }
    if AcceptFact(n, out) in s.facts && WriteFact(n, out) !in s'.facts {
      var k :| 0 <= k < |s.calls| && s.calls[k] == Completing(n, out);
      assert s'.calls[k] == s.calls[k];
    }
  }

  lemma {:induction false} AlwaysAcceptedWritten(cfg: Config, ls: seq<Label>)
    requires cfg.Valid() && CrashFree(ls)
    ensures AcceptedWritten(Reached(cfg, ls))
  {
    if ls != [] {
      AlwaysAcceptedWritten(cfg, ls[..|ls| - 1]);
      var s, l := Reached(cfg, ls[..|ls| - 1]), ls[|ls| - 1];
      forall n, out | AcceptFact(n, out) in Apply(cfg, s, l).facts
        ensures WriteFact(n, out) in Apply(cfg, s, l).facts || ToComplete(Apply(cfg, s, l).calls, n, out)
      {
        StillAccepted(cfg, s, l, n, out);
      }
    }
  }

  // ---- A state at rest ----

  ghost predicate EndsRight(rows: Table, inst: InstanceStatus)
  {
    inst == if AllCompleted(rows) then InstanceCompleted else InstanceRunning
  }

  /** All that the comparison needs to know about a state at rest. */
  ghost predicate Rest(cfg: Config, h: (string, Json) -> Json, s: State)
    requires cfg.Valid()
  {
    && Full(cfg, s.rows) && RowsOk(cfg, s.rows) && ConsistentRows(s)
    && Ordered(cfg, s.rows, s.done)
    && (forall n :: n in s.rows ==> RowFlows(cfg, s.rows, s.facts, n))
    && (forall n :: n in s.rows ==> !s.rows[n].status.Running? && !s.rows[n].status.Failed?)
    && (forall n :: !ReadyIn(cfg, s.rows, n))
    && (forall n, out :: AcceptFact(n, out) in s.facts ==>
          n in s.rows && s.rows[n].status.Completed? && s.rows[n].output == out)
    && AnswersFrom(h, s.facts)
    && EndsRight(s.rows, s.inst)
  }

  lemma ComesToRest(cfg: Config, h: (string, Json) -> Json, ls: seq<Label>)
    requires cfg.Valid() && CrashFree(ls) && Serialized(cfg, Init(), ls) && Quiescent(Reached(cfg, ls))
    requires AnswersFrom(h, Reached(cfg, ls).facts)
    ensures Rest(cfg, h, Reached(cfg, ls))
  {
    var s := Reached(cfg, ls);
    Always(cfg, ls);
    RowConsistency(cfg, ls);
    AlwaysOrdered(cfg, ls);
    AlwaysFlows(cfg, ls);
    AlwaysOneWrite(cfg, ls);
    AlwaysAcceptedWritten(cfg, ls);
    AtRest(cfg, ls);
    assert forall n, out :: !ToComplete(s.calls, n, out);
    forall n | n in s.rows ensures !s.rows[n].status.Failed? {
      assert RowFlows(cfg, s.rows, s.facts, n);
    }
  }

  // ---- Two states at rest ----

  /** Same definition, in any step order, and the same accepted triggers. */
  ghost predicate SameInputs(cfg: Config, cfg': Config, s: State, s': State)
  {
    cfg.defs == cfg'.defs && forall n, out :: AcceptFact(n, out) in s.facts <==> AcceptFact(n, out) in s'.facts
  }

  /** Step n is completed in both, with the same input and output. */
  ghost predicate Agree(rows: Table, rows': Table, n: string)
  {
    && n in rows && n in rows' && rows[n].status.Completed? && rows'[n].status.Completed?
    && rows[n].input == rows'[n].input && rows[n].output == rows'[n].output
  }

  /** Equal inputs and the same accepted triggers give equal outputs. */
  lemma OutputsAlike(cfg: Config, h: (string, Json) -> Json, s: State, s': State, n: string)
    requires cfg.Valid() && SameInputs(cfg, cfg, s, s') && AnswersFrom(h, s.facts) && AnswersFrom(h, s'.facts)
    requires n in cfg.defs && n in s.rows && n in s'.rows && s.rows[n].input == s'.rows[n].input
    requires RowFlows(cfg, s.rows, s.facts, n) && RowFlows(cfg, s'.rows, s'.facts, n)
    requires s.rows[n].status.Completed? && s'.rows[n].status.Completed?
    requires forall out :: AcceptFact(n, out) in s'.facts ==> s'.rows[n].output == out
    ensures s.rows[n].output == s'.rows[n].output
  {
  }

  /** A step with completed dependencies that is not ready, running, failed or waiting is completed. */
  lemma CompletedToo(cfg: Config, rows: Table, n: string)
    requires cfg.Valid() && RowsOk(cfg, rows) && n in rows && DepsDone(cfg.defs[n].deps, rows) && !ReadyIn(cfg, rows, n)
    requires !rows[n].status.Running? && !rows[n].status.Failed?
    requires Activated(cfg.defs[n].trigger) ==> rows[n].status.Completed?
    ensures rows[n].status.Completed?
  {
    assert Along(cfg.defs[n].trigger, Pending, rows[n].status);
  }

  /** The inductive step: a step completes alike in both once its dependencies do. */
  lemma CompletesAlike(cfg: Config, cfg': Config, h: (string, Json) -> Json, s: State, s': State, n: string)
    requires cfg.Valid() && cfg'.Valid() && Rest(cfg, h, s) && Rest(cfg', h, s') && SameInputs(cfg, cfg', s, s')
    requires n in s.rows && s.rows[n].status.Completed?
    requires forall d :: d in cfg.defs[n].deps ==> Agree(s.rows, s'.rows, d)
    ensures Agree(s.rows, s'.rows, n)
  {
    assert RowFlows(cfg, s.rows, s.facts, n) && RowFlows(cfg', s'.rows, s'.facts, n);
    InputAgrees(cfg.defs[n], s.rows, s'.rows);
    if Activated(cfg.defs[n].trigger) { assert AcceptFact(n, s.rows[n].output) in s'.facts; }
    CompletedToo(cfg', s'.rows, n);
    OutputsAlike(cfg, h, s, s', n);
  }

  ghost predicate PrefixAgree(s: State, s': State, k: nat)
    requires k <= |s.done|
  {
    forall i :: 0 <= i < k ==> Agree(s.rows, s'.rows, s.done[i])
  }

  lemma NextAgrees(cfg: Config, cfg': Config, h: (string, Json) -> Json, s: State, s': State, k: nat)
    requires cfg.Valid() && cfg'.Valid() && Rest(cfg, h, s) && Rest(cfg', h, s') && SameInputs(cfg, cfg', s, s')
    requires k < |s.done| && PrefixAgree(s, s', k)
    ensures Agree(s.rows, s'.rows, s.done[k])
  {
    assert s.done[k] in s.done && Precede(cfg, s.done, k);
    CompletesAlike(cfg, cfg', h, s, s', s.done[k]);
  }

  /** Each step agrees if those completed before it do. */
  ghost predicate StepwiseAgree(s: State, s': State)
  {
    forall k :: 0 <= k < |s.done| && PrefixAgree(s, s', k) ==> Agree(s.rows, s'.rows, s.done[k])
  }

  lemma {:induction false} PrefixAgrees(s: State, s': State, k: nat)
    requires StepwiseAgree(s, s') && k <= |s.done|
    ensures PrefixAgree(s, s', k)
    decreases k
  {
    if k > 0 {
      PrefixAgrees(s, s', k - 1);
      assert Agree(s.rows, s'.rows, s.done[k - 1]);
    }
  }

  lemma CompletedAgree(cfg: Config, cfg': Config, h: (string, Json) -> Json, s: State, s': State)
    requires cfg.Valid() && cfg'.Valid() && Rest(cfg, h, s) && Rest(cfg', h, s') && SameInputs(cfg, cfg', s, s')
    ensures forall m :: m in s.done ==> Agree(s.rows, s'.rows, m)
  {
    forall k | 0 <= k < |s.done| && PrefixAgree(s, s', k) ensures Agree(s.rows, s'.rows, s.done[k]) {
      NextAgrees(cfg, cfg', h, s, s', k);
    }
    PrefixAgrees(s, s', |s.done|);
  }

  /** A step that is not completed waits if its dependencies are completed, else is pending. */
  lemma NotCompleted(cfg: Config, h: (string, Json) -> Json, s: State, n: string)
    requires cfg.Valid() && Rest(cfg, h, s) && n in s.rows && !s.rows[n].status.Completed?
    ensures var r := s.rows[n];
            if DepsDone(cfg.defs[n].deps, s.rows)
            then r.status == ClaimStatus(cfg.defs[n].trigger) && r.output == Absent
                 && r.input == StepInput(cfg.defs[n], s.rows)
            else r == FreshRow()
  {
    assert !ReadyIn(cfg, s.rows, n) && ConsistentRow(s.rows[n], s.clock);
    assert RowFlows(cfg, s.rows, s.facts, n) && Along(cfg.defs[n].trigger, Pending, s.rows[n].status);
  }

  lemma EndsAlike(cfg: Config, cfg': Config, h: (string, Json) -> Json, s: State, s': State, n: string)
    requires cfg.Valid() && cfg'.Valid() && Rest(cfg, h, s) && Rest(cfg', h, s') && SameInputs(cfg, cfg', s, s')
    requires n in cfg.defs
    requires forall m :: m in s.done ==> Agree(s.rows, s'.rows, m)
    requires forall m :: m in s'.done ==> Agree(s'.rows, s.rows, m)
    ensures n in s.rows && n in s'.rows
    ensures s.rows[n].status == s'.rows[n].status
    ensures s.rows[n].input == s'.rows[n].input && s.rows[n].output == s'.rows[n].output
  {
    if !s.rows[n].status.Completed? {
      NotCompleted(cfg, h, s, n);
      NotCompleted(cfg', h, s', n);
      assert forall d :: d in s.done <==> d in s'.done;
      if DepsDone(cfg.defs[n].deps, s.rows) {
        assert forall d :: d in cfg.defs[n].deps ==> Agree(s.rows, s'.rows, d);
        InputAgrees(cfg.defs[n], s.rows, s'.rows);
      }
    }
  }

  ghost predicate SameRows(rows: Table, rows': Table)
  {
    && rows.Keys == rows'.Keys
    && forall n :: n in rows ==>
         && rows[n].status == rows'[n].status
         && rows[n].input == rows'[n].input
         && rows[n].output == rows'[n].output
  }

  lemma RestsAlike(cfg: Config, cfg': Config, h: (string, Json) -> Json, s: State, s': State)
    requires cfg.Valid() && cfg'.Valid() && Rest(cfg, h, s) && Rest(cfg', h, s') && SameInputs(cfg, cfg', s, s')
    ensures SameRows(s.rows, s'.rows)
  {
    CompletedAgree(cfg, cfg', h, s, s');
    CompletedAgree(cfg', cfg, h, s', s);
    forall n | n in s.rows
      ensures n in s'.rows && s.rows[n].status == s'.rows[n].status
      ensures s.rows[n].input == s'.rows[n].input && s.rows[n].output == s'.rows[n].output
    {
      EndsAlike(cfg, cfg', h, s, s', n);
    }
  }

  lemma SameEnd(rows: Table, rows': Table, inst: InstanceStatus, inst': InstanceStatus)
    requires SameRows(rows, rows') && EndsRight(rows, inst) && EndsRight(rows', inst')
    ensures inst == inst'
  {
  }

  /** Statuses, inputs, outputs and the instance status at rest are fixed by the definition
      and the accepted triggers: two runs that agree on these end alike. One of them may be a
      single node working through the steps in another order. */
  lemma Confluent(cfg: Config, cfg': Config, h: (string, Json) -> Json, ls: seq<Label>, ls': seq<Label>)
    requires cfg.Valid() && cfg'.Valid()
    requires CrashFree(ls) && Serialized(cfg, Init(), ls) && Quiescent(Reached(cfg, ls))
    requires CrashFree(ls') && Serialized(cfg', Init(), ls') && Quiescent(Reached(cfg', ls'))
    requires AnswersFrom(h, Reached(cfg, ls).facts) && AnswersFrom(h, Reached(cfg', ls').facts)
    requires SameInputs(cfg, cfg', Reached(cfg, ls), Reached(cfg', ls'))
    ensures SameRows(Reached(cfg, ls).rows, Reached(cfg', ls').rows)
    ensures Reached(cfg, ls).inst == Reached(cfg', ls').inst
  {
    ComesToRest(cfg, h, ls);
    ComesToRest(cfg', h, ls');
    RestsAlike(cfg, cfg', h, Reached(cfg, ls), Reached(cfg', ls'));
    SameEnd(Reached(cfg, ls).rows, Reached(cfg', ls').rows, Reached(cfg, ls).inst, Reached(cfg', ls').inst);
  }
}
