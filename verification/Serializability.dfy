/** Every interleaving is equivalent to one node working through its calls one by one. */
module Serializability {
  import opened Types
  import opened Protocol
  import opened Safety
  import opened Actions
  import opened DataFlow
  import opened History
  import opened Confluence
  import opened Completion

  // ---- Who accepts triggers ----

  ghost predicate AcceptsFit(cfg: Config, facts: set<Fact>)
  {
    forall n, out :: AcceptFact(n, out) in facts ==> n in cfg.defs && Activated(cfg.defs[n].trigger)
  }

  lemma NextAcceptsFit(cfg: Config, s: State, pc: Pc, a: Action)
    requires cfg.Valid() && RowsOk(cfg, s.rows) && Fires(cfg, s, pc, a) && AcceptsFit(cfg, s.facts)
    ensures AcceptsFit(cfg, s.facts + Learned(a))
  {
    forall n, out | AcceptFact(n, out) in Learned(a) ensures n in cfg.defs && Activated(cfg.defs[n].trigger) {
      assert pc == Checking(n, out) && s.rows[n].status.Waiting();
      assert Along(cfg.defs[n].trigger, Pending, s.rows[n].status);
    }
  }

  lemma {:induction false} AlwaysAcceptsFit(cfg: Config, ls: seq<Label>)
    requires cfg.Valid()
    ensures AcceptsFit(cfg, Reached(cfg, ls).facts)
  {
    if ls != [] {
      var s, l := Reached(cfg, ls[..|ls| - 1]), ls[|ls| - 1];
      Always(cfg, ls[..|ls| - 1]);
      AlwaysAcceptsFit(cfg, ls[..|ls| - 1]);
      if l.Act? && l.i < |s.calls| {
        NextFires(cfg, s, s.calls[l.i], l.answer);
        NextAcceptsFit(cfg, s, s.calls[l.i], Next(cfg, s, s.calls[l.i], l.answer));
      }
    }
  }

  // ---- One node catches up ----

  /** The triggers accepted in the second were accepted in the first. */
  ghost predicate AcceptsWithin(facts: set<Fact>, facts': set<Fact>)
  {
    forall n, out :: AcceptFact(n, out) in facts' ==> AcceptFact(n, out) in facts
  }

  /** The first k steps that completed in s are completed in s'. */
  ghost predicate CaughtUp(s: State, s': State, k: nat)
  {
    forall i :: 0 <= i < k && i < |s.done| ==> s.done[i] in s'.done
  }

  lemma {:induction false} FirstMissing(s: State, s': State, k: nat) returns (i: nat)
    requires k <= |s.done| && !CaughtUp(s, s', k)
    ensures i < k && CaughtUp(s, s', i) && s.done[i] !in s'.done
    decreases k
  {
    if CaughtUp(s, s', k - 1) { i := k - 1; } else { i := FirstMissing(s, s', k - 1); }
  }

  /** The first step that one node is behind with waits there for its trigger. */
  lemma MissingWaits(cfg: Config, h: (string, Json) -> Json, s: State, s': State, i: nat)
    requires cfg.Valid() && Rest(cfg, h, s) && Rest(cfg, h, s')
    requires i < |s.done| && CaughtUp(s, s', i) && s.done[i] !in s'.done
    ensures var n := s.done[i];
            && n in s.rows && n in s'.rows && s'.rows[n].status.Waiting()
            && AcceptFact(n, s.rows[n].output) in s.facts
  {
    var n := s.done[i];
    assert n in s.done && Precede(cfg, s.done, i);
    assert RowFlows(cfg, s.rows, s.facts, n);
    forall d | d in cfg.defs[n].deps ensures d in s'.rows && s'.rows[d].status.Completed? {
      var j :| 0 <= j < i && s.done[j] == d;
      assert s.done[j] in s'.done;
    }
    NotCompleted(cfg, h, s', n);
  }

  /** A trigger that one node has still to accept, and can. */
  lemma MissingTrigger(cfg: Config, h: (string, Json) -> Json, s: State, s': State) returns (n: string, out: Json)
    requires cfg.Valid() && Rest(cfg, h, s) && Rest(cfg, h, s') && !CaughtUp(s, s', |s.done|)
    ensures n in s'.rows && s'.rows[n].status.Waiting() && AcceptFact(n, out) in s.facts
  {
    var i := FirstMissing(s, s', |s.done|);
    MissingWaits(cfg, h, s, s', i);
    n, out := s.done[i], s.rows[s.done[i]].output;
  }

  lemma WithinOneMore(facts: set<Fact>, before: set<Fact>, after: set<Fact>, n: string, out: Json)
    requires AcceptsWithin(facts, before) && AcceptFact(n, out) in facts
    requires SameAccepts(before + {AcceptFact(n, out), WriteFact(n, out)}, after)
    ensures AcceptsWithin(facts, after)
  {
    forall m, o | AcceptFact(m, o) in after ensures AcceptFact(m, o) in facts {
      assert AcceptFact(m, o) in before + {AcceptFact(n, out), WriteFact(n, out)};
    }
  }

  /** A node that is not behind has accepted the same triggers. */
  lemma SameWhenCaughtUp(cfg: Config, h: (string, Json) -> Json, s: State, s': State)
    requires cfg.Valid() && Rest(cfg, h, s) && Rest(cfg, h, s')
    requires AcceptsFit(cfg, s.facts) && AcceptsWithin(s.facts, s'.facts) && CaughtUp(s, s', |s.done|)
    ensures SameInputs(cfg, cfg, s, s')
  {
    forall n, out | AcceptFact(n, out) in s.facts ensures AcceptFact(n, out) in s'.facts {
      assert n in s.done;
      var i :| 0 <= i < |s.done| && s.done[i] == n;
      assert s.done[i] in s'.done;
      assert RowFlows(cfg, s'.rows, s'.facts, n);
    }
  }

  lemma CatchUpOne(cfg: Config, h: (string, Json) -> Json, s: State, ls: seq<Label>) returns (ls': seq<Label>)
    requires cfg.Valid() && Rest(cfg, h, s) && Rest(cfg, h, Reached(cfg, ls))
    requires Fair(cfg, h, ls) && OneByOne(cfg, ls) && Quiescent(Reached(cfg, ls))
    requires AcceptsWithin(s.facts, Reached(cfg, ls).facts) && !CaughtUp(s, Reached(cfg, ls), |s.done|)
    ensures Fair(cfg, h, ls') && OneByOne(cfg, ls') && Quiescent(Reached(cfg, ls'))
    ensures AcceptsWithin(s.facts, Reached(cfg, ls').facts)
    ensures |Reached(cfg, ls).done| < |Reached(cfg, ls').done|
  {
    var n, out := MissingTrigger(cfg, h, s, Reached(cfg, ls));
    var triggered := TriggerOne(cfg, h, ls, n, out);
    ls' := Drain(cfg, h, triggered);
    WithinOneMore(s.facts, Reached(cfg, ls).facts, Reached(cfg, ls').facts, n, out);
  }

  /** One node accepts the missing triggers one by one. */
  lemma {:induction false} CatchUp(cfg: Config, h: (string, Json) -> Json, s: State, ls: seq<Label>)
    returns (ls': seq<Label>)
    requires cfg.Valid() && Rest(cfg, h, s) && AcceptsFit(cfg, s.facts)
    requires Fair(cfg, h, ls) && OneByOne(cfg, ls) && Quiescent(Reached(cfg, ls))
    requires AcceptsWithin(s.facts, Reached(cfg, ls).facts)
    ensures Fair(cfg, h, ls') && OneByOne(cfg, ls') && Quiescent(Reached(cfg, ls'))
    ensures SameInputs(cfg, cfg, s, Reached(cfg, ls'))
    decreases |cfg.defs.Keys| - |Reached(cfg, ls).done|
  {
    ComesToRest(cfg, h, ls);
    if CaughtUp(s, Reached(cfg, ls), |s.done|) {
      SameWhenCaughtUp(cfg, h, s, Reached(cfg, ls));
      ls' := ls;
    } else {
      var further := CatchUpOne(cfg, h, s, ls);
      DoneBound(cfg, further);
      ls' := CatchUp(cfg, h, s, further);
    }
  }

  /** Serializability: whatever any number of nodes have done in any interleaving without
      crashes, with succeeding HTTP and at most one trigger in flight per step, one node that
      works through its calls one by one can do with the same accepted triggers; and it ends
      with the same statuses, inputs, outputs and instance status. */
  lemma Serializable(cfg: Config, h: (string, Json) -> Json, ls: seq<Label>) returns (ls': seq<Label>)
    requires cfg.Valid() && Fair(cfg, h, ls) && Quiescent(Reached(cfg, ls))
    ensures Fair(cfg, h, ls') && OneByOne(cfg, ls') && Quiescent(Reached(cfg, ls'))
    ensures SameInputs(cfg, cfg, Reached(cfg, ls), Reached(cfg, ls'))
    ensures SameRows(Reached(cfg, ls).rows, Reached(cfg, ls').rows)
    ensures Reached(cfg, ls).inst == Reached(cfg, ls').inst
  {
    ComesToRest(cfg, h, ls);
    AlwaysAcceptsFit(cfg, ls);
    var first := Drain(cfg, h, []);
    ls' := CatchUp(cfg, h, Reached(cfg, ls), first);
    Confluent(cfg, cfg, h, ls, ls');
  }
}
