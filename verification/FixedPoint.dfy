/** What `advance` computes: a least fixed point of the dependency relation. */
module FixedPoint {
  import opened Types
  import opened Protocol
  import opened Safety
  import opened Actions
  import opened Lifecycle
  import opened Progress
  import opened DataFlow
  import opened History

  predicate Within(deps: seq<string>, D: set<string>)
  {
    forall d :: d in deps ==> d in D
  }

  /** An auto or http step is in D as soon as all its dependencies are. */
  ghost predicate Closed(defs: map<string, StepDef>, D: set<string>)
  {
    forall n :: n in defs && !Activated(defs[n].trigger) && Within(defs[n].deps, D) ==> n in D
  }

  function CompletedSet(rows: Table): set<string>
  {
    set n | n in rows && rows[n].status.Completed?
  }

  /** No call is triggering a step, and no further trigger arrives. */
  ghost predicate NoneTriggering(cfg: Config, calls: seq<Pc>)
  {
    forall i :: 0 <= i < |calls| ==> TriggerOf(cfg, calls[i]) == None
  }

  ghost predicate NoTriggers(ls: seq<Label>)
  {
    forall l :: l in ls ==> !l.Trigger?
  }

  // ---- Without triggers only auto and http steps complete ----

  /** From position m on, `done` holds auto and http steps. */
  ghost predicate WorkFrom(cfg: Config, done: seq<string>, m: nat)
  {
    forall k :: m <= k < |done| ==> done[k] in cfg.defs && !Activated(cfg.defs[done[k]].trigger)
  }

  lemma WorkStep(cfg: Config, s: State, l: Label, m: nat)
    requires cfg.Valid() && Inv(cfg, s) && NoneTriggering(cfg, s.calls) && WorkFrom(cfg, s.done, m) && !l.Trigger?
    ensures var s' := Apply(cfg, s, l);
            NoneTriggering(cfg, s'.calls) && WorkFrom(cfg, s'.done, m) && s.done <= s'.done
  {
    if l.Act? && l.i < |s.calls| {
      var pc := s.calls[l.i];
      NextFires(cfg, s, pc, l.answer);
      assert PcOk(cfg, s.rows, pc) && TriggerOf(cfg, pc) == None;
      NoNewTrigger(cfg, s, pc, Next(cfg, s, pc, l.answer));
    }
  }

  lemma {:induction false} WorkRun(cfg: Config, s: State, ls: seq<Label>)
    requires cfg.Valid() && Inv(cfg, s) && NoneTriggering(cfg, s.calls) && NoTriggers(ls)
    ensures var s' := Exec(cfg, s, ls);
            NoneTriggering(cfg, s'.calls) && WorkFrom(cfg, s'.done, |s.done|) && s.done <= s'.done
  {
    if ls != [] {
      InvExec(cfg, s, ls[..|ls| - 1]);
      WorkRun(cfg, s, ls[..|ls| - 1]);
      WorkStep(cfg, Exec(cfg, s, ls[..|ls| - 1]), ls[|ls| - 1], |s.done|);
    }
  }

  // ---- Least ----

  /** Whatever is completed in order from inside a closed set stays inside it. */
  lemma {:induction false} StaysInside(cfg: Config, rows: Table, done: seq<string>, m: nat, k: nat, D: set<string>)
    requires Ordered(cfg, rows, done) && WorkFrom(cfg, done, m) && m <= k <= |done|
    requires Closed(cfg.defs, D) && forall n :: n in done[..m] ==> n in D
    ensures forall n :: n in done[..k] ==> n in D
    decreases k
  {
    if k > m {
      StaysInside(cfg, rows, done, m, k - 1, D);
      assert Precede(cfg, done, k - 1);
      assert Within(cfg.defs[done[k - 1]].deps, D);
      assert done[..k] == done[..k - 1] + [done[k - 1]];
    }
  }

  /** At rest without a failure, the completed steps are closed, and exactly the manual and
      queueti steps whose dependencies are completed wait or are completed. */
  lemma ClosedAtRest(cfg: Config, rows: Table)
    requires cfg.Valid() && Full(cfg, rows) && RowsOk(cfg, rows) && !AnyFailed(rows)
    requires forall n :: n in rows ==> !rows[n].status.Running?
    requires forall n :: !ReadyIn(cfg, rows, n)
    ensures Closed(cfg.defs, CompletedSet(rows))
    ensures forall n :: n in cfg.defs && Activated(cfg.defs[n].trigger) ==>
              (rows[n].status == ClaimStatus(cfg.defs[n].trigger) <==>
                 Within(cfg.defs[n].deps, CompletedSet(rows)) && n !in CompletedSet(rows))
  {
    forall n | n in cfg.defs
      ensures rows[n].status.Pending? <==> !DepsDone(cfg.defs[n].deps, rows)
      ensures DepsDone(cfg.defs[n].deps, rows) <==> Within(cfg.defs[n].deps, CompletedSet(rows))
      ensures Along(cfg.defs[n].trigger, Pending, rows[n].status)
    {
      assert !ReadyIn(cfg, rows, n);
    }
  }

  lemma LeastPart(cfg: Config, s: State, s': State, D: set<string>)
    requires Ordered(cfg, s.rows, s.done) && Ordered(cfg, s'.rows, s'.done)
    requires s.done <= s'.done && WorkFrom(cfg, s'.done, |s.done|)
    ensures CompletedSet(s.rows) <= CompletedSet(s'.rows)
    ensures CompletedSet(s.rows) <= D && Closed(cfg.defs, D) ==> CompletedSet(s'.rows) <= D
  {
    forall n | n in CompletedSet(s.rows) ensures n in CompletedSet(s'.rows) {
      assert n in s.done;
      assert n in s'.done;
    }
    if CompletedSet(s.rows) <= D && Closed(cfg.defs, D) {
      assert s'.done[..|s.done|] == s.done;
      forall n | n in s.done ensures n in D { assert n in CompletedSet(s.rows); }
      StaysInside(cfg, s'.rows, s'.done, |s.done|, |s'.done|, D);
      assert s'.done[..|s'.done|] == s'.done;
    }
  }

  /** From any moment at which nobody is triggering a step, as long as no trigger arrives, no
      step completes outside the closure, whatever fails or crashes. */
  lemma NeverOutside(cfg: Config, before: seq<Label>, more: seq<Label>, D: set<string>)
    requires cfg.Valid() && NoTriggers(more) && NoneTriggering(cfg, Reached(cfg, before).calls)
    ensures var C0, C := CompletedSet(Reached(cfg, before).rows), CompletedSet(Reached(cfg, before + more).rows);
            C0 <= C && (C0 <= D && Closed(cfg.defs, D) ==> C <= D)
  {
    ExecAppend(cfg, Init(), before, more);
    Always(cfg, before);
    AlwaysOrdered(cfg, before);
    AlwaysOrdered(cfg, before + more);
    WorkRun(cfg, Reached(cfg, before), more);
    LeastPart(cfg, Reached(cfg, before), Reached(cfg, before + more), D);
  }

  /** From any moment at which nobody is triggering a step, if no trigger arrives, no call
      crashes and no step fails, then once all calls have returned the completed steps are the
      least set that contains the steps completed at that moment and every auto or http step
      whose dependencies it contains; the manual and queueti steps that this makes ready
      wait; and nothing is running. The order of the steps plays no part. */
  lemma LeastFixedPoint(cfg: Config, before: seq<Label>, more: seq<Label>, D: set<string>)
    requires cfg.Valid() && CrashFree(before + more) && NoTriggers(more)
    requires NoneTriggering(cfg, Reached(cfg, before).calls)
    requires Quiescent(Reached(cfg, before + more)) && !AnyFailed(Reached(cfg, before + more).rows)
    ensures var C0, rows := CompletedSet(Reached(cfg, before).rows), Reached(cfg, before + more).rows;
            var C := CompletedSet(rows);
            && C0 <= C && Closed(cfg.defs, C)
            && (C0 <= D && Closed(cfg.defs, D) ==> C <= D)
            && rows.Keys == cfg.defs.Keys
            && (forall n :: n in rows ==> !rows[n].status.Running?)
            && (forall n :: n in rows && Activated(cfg.defs[n].trigger) ==>
                  (rows[n].status == ClaimStatus(cfg.defs[n].trigger) <==> Within(cfg.defs[n].deps, C) && n !in C))
  {
    var s' := Reached(cfg, before + more);
    Always(cfg, before + more);
    AtRest(cfg, before + more);
    ClosedAtRest(cfg, s'.rows);
    NeverOutside(cfg, before, more, D);
  }

  /** Two runs over the same definition that start from the same completed steps complete the
      same steps, whatever the step order, the number of nodes or the interleaving. */
  lemma OrderIrrelevant(
    cfg: Config, before: seq<Label>, more: seq<Label>, cfg': Config, before': seq<Label>, more': seq<Label>)
    requires cfg.Valid() && CrashFree(before + more) && NoTriggers(more)
    requires NoneTriggering(cfg, Reached(cfg, before).calls)
    requires Quiescent(Reached(cfg, before + more)) && !AnyFailed(Reached(cfg, before + more).rows)
    requires cfg'.Valid() && CrashFree(before' + more') && NoTriggers(more')
    requires NoneTriggering(cfg', Reached(cfg', before').calls)
    requires Quiescent(Reached(cfg', before' + more')) && !AnyFailed(Reached(cfg', before' + more').rows)
    requires cfg.defs == cfg'.defs
    requires CompletedSet(Reached(cfg, before).rows) == CompletedSet(Reached(cfg', before').rows)
    ensures CompletedSet(Reached(cfg, before + more).rows) == CompletedSet(Reached(cfg', before' + more').rows)
  {
    LeastFixedPoint(cfg, before, more, CompletedSet(Reached(cfg', before' + more').rows));
    LeastFixedPoint(cfg', before', more', CompletedSet(Reached(cfg, before + more).rows));
  }
}
