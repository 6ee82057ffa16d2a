/** Validation accepts cyclic workflows. Completion is reachable if and only if the dependency
    graph is acyclic. */
module Completion {
  import opened Types
  import opened Protocol
  import opened Safety
  import opened Actions
  import opened Effects
  import opened Lifecycle
  import opened Counting
  import opened Progress
  import opened DataFlow
  import opened Publishing
  import opened History
  import opened Confluence

  // ---- Dependency paths ----

  /** Each step of the path depends on the next. */
  ghost predicate DepPath(defs: map<string, StepDef>, p: seq<string>)
  {
    && p != [] && p[0] in defs
    && forall i :: 0 <= i < |p| - 1 ==> p[i] in defs && p[i + 1] in defs[p[i]].deps
  }

  ghost predicate Revisits(defs: map<string, StepDef>, p: seq<string>)
  {
    DepPath(defs, p) && exists i, j :: 0 <= i < j < |p| && p[i] == p[j]
  }

  /** Step n is on a cycle or downstream of one: following dependencies from it, one comes
      back to a step. */
  ghost predicate Doomed(defs: map<string, StepDef>, n: string)
  {
    exists p :: Revisits(defs, p) && p[0] == n
  }

  ghost predicate Acyclic(defs: map<string, StepDef>)
  {
    forall n :: n in defs ==> !Doomed(defs, n)
  }

  /** Every dependency names a step: what validation checks. */
  predicate KnownDeps(defs: map<string, StepDef>)
  {
    forall n :: n in defs ==> forall d :: d in defs[n].deps ==> d in defs
  }

  // ---- Cyclic workflows never complete ----

  /** Down a path of completed steps the position in `done` drops at every step. */
  lemma {:induction false} Drops(cfg: Config, rows: Table, done: seq<string>, p: seq<string>, i: nat, j: nat, m: nat)
    requires Ordered(cfg, rows, done) && DepPath(cfg.defs, p) && i <= j < |p|
    requires m < |done| && done[m] == p[i]
    ensures exists m' :: 0 <= m' <= m - (j - i) && done[m'] == p[j]
    decreases j - i
  {
    if i < j {
      assert Precede(cfg, done, m);
      assert p[i + 1] in done[..m];
      var k :| 0 <= k < m && done[k] == p[i + 1];
      Drops(cfg, rows, done, p, i + 1, j, k);
    }
  }

  lemma NoReturn(cfg: Config, rows: Table, done: seq<string>, p: seq<string>, i: nat, j: nat)
    requires Ordered(cfg, rows, done) && DepPath(cfg.defs, p) && i < j < |p| && p[i] == p[j]
    ensures p[i] !in done
  {
    if p[i] in done {
      var m :| 0 <= m < |done| && done[m] == p[i];
      Drops(cfg, rows, done, p, i, j, m);
    }
  }

  /** A completed step has all the steps of its dependency paths completed. */
  lemma PathCompleted(cfg: Config, rows: Table, done: seq<string>, p: seq<string>, j: nat)
    requires Ordered(cfg, rows, done) && DepPath(cfg.defs, p) && p[0] in done && j < |p|
    ensures p[j] in done
  {
    var m :| 0 <= m < |done| && done[m] == p[0];
    Drops(cfg, rows, done, p, 0, j, m);
  }

  lemma TailPath(defs: map<string, StepDef>, p: seq<string>)
    requires DepPath(defs, p) && |p| > 1 && p[1] in defs
    ensures DepPath(defs, p[1..])
  {
    var tail := p[1..];
    assert forall k :: 0 <= k < |tail| ==> tail[k] == p[k + 1];
  }

  lemma RevisitingIsPending(cfg: Config, rows: Table, done: seq<string>, p: seq<string>)
    requires cfg.Valid() && RowsOk(cfg, rows) && Ordered(cfg, rows, done) && Revisits(cfg.defs, p)
    ensures p[0] in rows ==> rows[p[0]].status.Pending?
  {
    var i, j :| 0 <= i < j < |p| && p[i] == p[j];
    NoReturn(cfg, rows, done, p, i, j);
    if p[0] in rows && !rows[p[0]].status.Pending? {
      assert DepsDone(cfg.defs[p[0]].deps, rows) && p[1] in cfg.defs[p[0]].deps;
      TailPath(cfg.defs, p);
      PathCompleted(cfg, rows, done, p[1..], j - 1);
    }
  }

  /** In every reachable state, crashes included, a step that is on a cycle or downstream of
      one is pending; so the instance never completes. */
  lemma CyclicStaysPending(cfg: Config, ls: seq<Label>, n: string)
    requires cfg.Valid() && n in cfg.defs && Doomed(cfg.defs, n)
    ensures var s := Reached(cfg, ls);
            (n in s.rows ==> s.rows[n].status.Pending?) && !s.inst.InstanceCompleted?
  {
    var s := Reached(cfg, ls);
    Always(cfg, ls);
    AlwaysOrdered(cfg, ls);
    var p :| Revisits(cfg.defs, p) && p[0] == n;
    RevisitingIsPending(cfg, s.rows, s.done, p);
    assert InstOk(cfg, s.rows, s.inst);
  }

  // ---- Acyclic workflows always have something to wait for ----

  /** Distinct steps are no more than there are. */
  lemma {:induction false} DistinctBound(p: seq<string>, names: set<string>)
    requires forall i, j :: 0 <= i < j < |p| ==> p[i] != p[j]
    requires forall i :: 0 <= i < |p| ==> p[i] in names
    ensures |p| <= |names|
  {
    if p != [] {
      var last := p[|p| - 1];
      DistinctBound(p[..|p| - 1], names - {last});
    }
  }

  lemma ReturnDooms(defs: map<string, StepDef>, p: seq<string>, d: string)
    requires DepPath(defs, p) && p[|p| - 1] in defs && d in defs[p[|p| - 1]].deps && d in p
    ensures Doomed(defs, p[0])
  {
    var q := p + [d];
    var i :| 0 <= i < |p| && p[i] == d;
    assert q[i] == q[|p|];
    assert Revisits(defs, q) && q[0] == p[0];
  }

  /** Following unmet dependencies from a pending step leads to one that is ready. */
  lemma {:induction false} FindReady(cfg: Config, rows: Table, p: seq<string>) returns (n: string)
    requires cfg.Valid() && KnownDeps(cfg.defs) && Acyclic(cfg.defs) && Full(cfg, rows)
    requires forall m :: m in rows ==> rows[m].status.Pending? || rows[m].status.Completed?
    requires DepPath(cfg.defs, p) && forall i :: 0 <= i < |p| ==> p[i] in rows && rows[p[i]].status.Pending?
    requires forall i, j :: 0 <= i < j < |p| ==> p[i] != p[j]
    ensures ReadyIn(cfg, rows, n)
    decreases |cfg.defs.Keys| + 1 - |p|
  {
    var last := p[|p| - 1];
    DistinctBound(p, cfg.defs.Keys);
    if DepsDone(cfg.defs[last].deps, rows) {
      n := last;
    } else {
      var d :| d in cfg.defs[last].deps && !(d in rows && rows[d].status.Completed?);
      assert d in rows;
      if d in p { ReturnDooms(cfg.defs, p, d); }
      n := FindReady(cfg, rows, p + [d]);
    }
  }

  /** On a validated acyclic workflow, when no call is in flight, no step failed and the
      instance is not completed, some manual or queueti step is waiting. */
  lemma SomethingWaits(cfg: Config, ls: seq<Label>) returns (n: string)
    requires cfg.Valid() && KnownDeps(cfg.defs) && Acyclic(cfg.defs)
    requires CrashFree(ls) && Quiescent(Reached(cfg, ls))
    requires var s := Reached(cfg, ls); !AnyFailed(s.rows) && !s.inst.InstanceCompleted?
    ensures var s := Reached(cfg, ls); n in s.rows && s.rows[n].status.Waiting()
  {
    var s := Reached(cfg, ls);
    AtRest(cfg, ls);
    if m :| m in s.rows && s.rows[m].status.Waiting() {
      n := m;
    } else {
      var m :| m in s.rows && !s.rows[m].status.Completed?;
      n := FindReady(cfg, s.rows, [m]);
      assert false;
    }
  }

  // ---- How many triggers it takes ----

  /** With at most one trigger in flight per step, a completed instance has accepted exactly
      one trigger for every manual and queueti step, and none for any other step. */
  lemma TriggersToComplete(cfg: Config, ls: seq<Label>, n: string)
    requires cfg.Valid() && CrashFree(ls) && Serialized(cfg, Init(), ls) && Quiescent(Reached(cfg, ls))
    requires Reached(cfg, ls).inst.InstanceCompleted?
    ensures Reached(cfg, ls).effects[Accepted(n)]
         == if n in cfg.defs && Activated(cfg.defs[n].trigger) then 1 else 0
  {
    Always(cfg, ls);
    AlwaysOnce(cfg, ls);
    AlwaysOneWrite(cfg, ls);
    if n in cfg.defs && Activated(cfg.defs[n].trigger) {
      WritesEqualAccepted(cfg, ls, n);
    } else {
      assert !Fits(cfg, Accepted(n));
    }
  }

  /** At rest, without a failure and on an acyclic graph, the instance is completed if and only
      if one trigger was accepted for every manual and queueti step. */
  lemma CompletedIffTriggered(cfg: Config, ls: seq<Label>)
    requires cfg.Valid() && KnownDeps(cfg.defs) && Acyclic(cfg.defs)
    requires CrashFree(ls) && Serialized(cfg, Init(), ls) && Quiescent(Reached(cfg, ls))
    requires !AnyFailed(Reached(cfg, ls).rows)
    ensures var s := Reached(cfg, ls);
            s.inst.InstanceCompleted? <==>
            forall n :: n in cfg.defs && Activated(cfg.defs[n].trigger) ==> s.effects[Accepted(n)] == 1
  {
    var s := Reached(cfg, ls);
    if s.inst.InstanceCompleted? {
      forall n | n in cfg.defs && Activated(cfg.defs[n].trigger) ensures s.effects[Accepted(n)] == 1 {
        TriggersToComplete(cfg, ls, n);
      }
    } else {
      var n := SomethingWaits(cfg, ls);
      Always(cfg, ls);
      assert Along(cfg.defs[n].trigger, Pending, s.rows[n].status);
      AlwaysOneWrite(cfg, ls);
      WritesEqualAccepted(cfg, ls, n);
    }
  }

  // ---- Acyclic workflows can complete ----

  /** A run in which HTTP answers as h does and triggers do not overlap. */
  ghost predicate Fair(cfg: Config, h: (string, Json) -> Json, ls: seq<Label>)
    requires cfg.Valid()
  {
    CrashFree(ls) && Serialized(cfg, Init(), ls) && AnswersFrom(h, Reached(cfg, ls).facts)
  }

  /** The answer that h gives to a call that is about to send. */
  function AnswerBy(h: (string, Json) -> Json, pc: Pc): HttpResult
  {
    if pc.Sending? then Success(h(pc.n, pc.input)) else Success(Absent)
  }

  lemma FairAnswers(cfg: Config, h: (string, Json) -> Json, s: State, l: Label)
    requires cfg.Valid() && AnswersFrom(h, s.facts)
    requires l.Act? && l.i < |s.calls| ==> l.answer == AnswerBy(h, s.calls[l.i])
    ensures AnswersFrom(h, Apply(cfg, s, l).facts)
  {
    if l.Act? && l.i < |s.calls| {
      var a := Next(cfg, s, s.calls[l.i], l.answer);
      forall n, input, answer | AnswerFact(n, input, answer) in Learned(a) ensures answer == Success(h(n, input)) {
        assert s.calls[l.i] == Sending(n, input);
      }
    }
  }

  lemma FairLabel(cfg: Config, h: (string, Json) -> Json, ls: seq<Label>, l: Label)
    requires cfg.Valid() && Fair(cfg, h, ls) && !l.Crash?
    requires Admits(cfg, Reached(cfg, ls), l)
    requires var s := Reached(cfg, ls); l.Act? && l.i < |s.calls| ==> l.answer == AnswerBy(h, s.calls[l.i])
    ensures Fair(cfg, h, ls + [l]) && Reached(cfg, ls + [l]) == Apply(cfg, Reached(cfg, ls), l)
  {
    assert (ls + [l])[..|ls|] == ls;
    FairAnswers(cfg, h, Reached(cfg, ls), l);
  }

  lemma DoneGrows(cfg: Config, ls: seq<Label>, l: Label)
    requires cfg.Valid()
    ensures Reached(cfg, ls).done <= Apply(cfg, Reached(cfg, ls), l).done
  {
    Always(cfg, ls);
    AlwaysOrdered(cfg, ls);
    KeepsOrdered(cfg, Reached(cfg, ls), l);
  }

  /** A call is triggered only when all others have returned: what one node does that works
      through its calls one by one. */
  ghost predicate OneByOne(cfg: Config, ls: seq<Label>)
    requires cfg.Valid()
  {
    ls == [] ||
    (OneByOne(cfg, ls[..|ls| - 1]) && (ls[|ls| - 1].Trigger? ==> Quiescent(Reached(cfg, ls[..|ls| - 1]))))
  }

  /** No call has still to check whether its step is waiting. */
  ghost predicate NoneChecking(calls: seq<Pc>)
  {
    forall i :: 0 <= i < |calls| ==> !calls[i].Checking?
  }

  ghost predicate SameAccepts(facts: set<Fact>, facts': set<Fact>)
  {
    forall n, out :: AcceptFact(n, out) in facts <==> AcceptFact(n, out) in facts'
  }

  lemma OneByOneLabel(cfg: Config, ls: seq<Label>, l: Label)
    requires cfg.Valid() && OneByOne(cfg, ls) && (l.Trigger? ==> Quiescent(Reached(cfg, ls)))
    ensures OneByOne(cfg, ls + [l])
  {
    assert (ls + [l])[..|ls + [l]| - 1] == ls;
  }

  /** The run goes on, one by one if it did so before. */
  lemma Further(cfg: Config, h: (string, Json) -> Json, ls: seq<Label>, l: Label) returns (ls': seq<Label>)
    requires cfg.Valid() && Fair(cfg, h, ls) && !l.Crash? && Admits(cfg, Reached(cfg, ls), l)
    requires l.Trigger? ==> Quiescent(Reached(cfg, ls))
    requires var s := Reached(cfg, ls); l.Act? && l.i < |s.calls| ==> l.answer == AnswerBy(h, s.calls[l.i])
    ensures Fair(cfg, h, ls') && Reached(cfg, ls') == Apply(cfg, Reached(cfg, ls), l)
    ensures OneByOne(cfg, ls) ==> OneByOne(cfg, ls')
  {
    ls' := ls + [l];
    FairLabel(cfg, h, ls, l);
    if OneByOne(cfg, ls) { OneByOneLabel(cfg, ls, l); }
  }

  lemma NothingAccepted(cfg: Config, s: State, i: nat, answer: HttpResult)
    requires cfg.Valid() && i < |s.calls| && NoneChecking(s.calls)
    ensures var s' := Apply(cfg, s, Act(i, answer)); NoneChecking(s'.calls) && SameAccepts(s.facts, s'.facts)
  {
    var a := Next(cfg, s, s.calls[i], answer);
    NextFires(cfg, s, s.calls[i], answer);
    assert !a.pc.Checking? && forall n, out :: AcceptFact(n, out) !in Learned(a);
  }

  lemma DrainOne(cfg: Config, h: (string, Json) -> Json, ls: seq<Label>) returns (ls': seq<Label>)
    requires cfg.Valid() && Fair(cfg, h, ls) && !Quiescent(Reached(cfg, ls))
    ensures Fair(cfg, h, ls') && Remaining(cfg, Reached(cfg, ls')) < Remaining(cfg, Reached(cfg, ls))
    ensures Reached(cfg, ls).done <= Reached(cfg, ls').done
    ensures OneByOne(cfg, ls) ==> OneByOne(cfg, ls')
    ensures NoneChecking(Reached(cfg, ls).calls) ==>
              NoneChecking(Reached(cfg, ls').calls) && SameAccepts(Reached(cfg, ls).facts, Reached(cfg, ls').facts)
  {
    var s := Reached(cfg, ls);
    var i :| 0 <= i < |s.calls| && !s.calls[i].Done?;
    var answer := AnswerBy(h, s.calls[i]);
    Always(cfg, ls);
    DoneGrows(cfg, ls, Act(i, answer));
    ActionsEnd(cfg, s, i, answer);
    ls' := Further(cfg, h, ls, Act(i, answer));
    if NoneChecking(s.calls) { NothingAccepted(cfg, s, i, answer); }
  }

  /** Letting the calls act one after the other brings any run to rest. */
  lemma {:induction false} Drain(cfg: Config, h: (string, Json) -> Json, ls: seq<Label>) returns (ls': seq<Label>)
    requires cfg.Valid() && Fair(cfg, h, ls)
    ensures Fair(cfg, h, ls') && Quiescent(Reached(cfg, ls'))
    ensures Reached(cfg, ls).done <= Reached(cfg, ls').done
    ensures OneByOne(cfg, ls) ==> OneByOne(cfg, ls')
    ensures NoneChecking(Reached(cfg, ls).calls) ==> SameAccepts(Reached(cfg, ls).facts, Reached(cfg, ls').facts)
    decreases Remaining(cfg, Reached(cfg, ls))
  {
    if Quiescent(Reached(cfg, ls)) {
      ls' := ls;
    } else {
      var further := DrainOne(cfg, h, ls);
      ls' := Drain(cfg, h, further);
    }
  }

  /** The three actions of TriggerStep on a waiting step. */
  lemma TriggerSteps(cfg: Config, s: State, n: string, out: Json, answer: HttpResult)
    requires cfg.Valid() && n in s.rows && s.rows[n].status.Waiting()
    ensures var i := |s.calls|;
            var s1 := Apply(cfg, s, Trigger(n, out));
            var s2 := Apply(cfg, s1, Act(i, answer));
            var s3 := Apply(cfg, s2, Act(i, answer));
            && |s1.calls| == |s2.calls| == i + 1
            && s1.calls[i] == Checking(n, out) && s2.calls[i] == Completing(n, out)
            && s3.calls == s.calls + [Publishing(n, out)] && s3.done == s.done + [n]
            && s3.facts == s.facts + {AcceptFact(n, out), WriteFact(n, out)}
  {
  }

  /** From a state at rest, one trigger of a waiting step completes that step. */
  lemma TriggerOne(cfg: Config, h: (string, Json) -> Json, ls: seq<Label>, n: string, out: Json)
    returns (ls': seq<Label>)
    requires cfg.Valid() && Fair(cfg, h, ls) && Quiescent(Reached(cfg, ls))
    requires n in Reached(cfg, ls).rows && Reached(cfg, ls).rows[n].status.Waiting()
    ensures Fair(cfg, h, ls') && Reached(cfg, ls').done == Reached(cfg, ls).done + [n]
    ensures NoneChecking(Reached(cfg, ls').calls) && (OneByOne(cfg, ls) ==> OneByOne(cfg, ls'))
    ensures Reached(cfg, ls').facts == Reached(cfg, ls).facts + {AcceptFact(n, out), WriteFact(n, out)}
  {
    var i := |Reached(cfg, ls).calls|;
    TriggerSteps(cfg, Reached(cfg, ls), n, out, Success(Absent));
    var called := Further(cfg, h, ls, Trigger(n, out));
    var accepted := Further(cfg, h, called, Act(i, Success(Absent)));
    ls' := Further(cfg, h, accepted, Act(i, Success(Absent)));
  }

  lemma DoneBound(cfg: Config, ls: seq<Label>)
    requires cfg.Valid()
    ensures |Reached(cfg, ls).done| <= |cfg.defs.Keys|
  {
    AlwaysOrdered(cfg, ls);
    var done := Reached(cfg, ls).done;
    forall k | 0 <= k < |done| ensures done[k] in cfg.defs.Keys {
      assert Precede(cfg, done, k);
    }
    DistinctBound(done, cfg.defs.Keys);
  }

  /** From a state at rest, triggering waiting steps one by one completes the instance. */
  lemma {:induction false} Finish(cfg: Config, h: (string, Json) -> Json, ls: seq<Label>) returns (ls': seq<Label>)
    requires cfg.Valid() && KnownDeps(cfg.defs) && Acyclic(cfg.defs)
    requires Fair(cfg, h, ls) && Quiescent(Reached(cfg, ls))
    ensures Fair(cfg, h, ls') && Quiescent(Reached(cfg, ls')) && Reached(cfg, ls').inst.InstanceCompleted?
    decreases |cfg.defs.Keys| - |Reached(cfg, ls).done|
  {
    ComesToRest(cfg, h, ls);
    if Reached(cfg, ls).inst.InstanceCompleted? {
      ls' := ls;
    } else {
      var n := SomethingWaits(cfg, ls);
      var triggered := TriggerOne(cfg, h, ls, n, Absent);
      var drained := Drain(cfg, h, triggered);
      DoneBound(cfg, drained);
      ls' := Finish(cfg, h, drained);
    }
  }

  /** The instance of a validated workflow can complete if and only if the workflow's
      dependency graph is acyclic: on an acyclic one some run with succeeding HTTP completes
      it, and on a cyclic one no run does. */
  lemma CompletesIffAcyclic(cfg: Config, h: (string, Json) -> Json)
    requires cfg.Valid() && KnownDeps(cfg.defs)
    ensures Acyclic(cfg.defs) <==> exists ls :: Reached(cfg, ls).inst.InstanceCompleted?
    ensures Acyclic(cfg.defs) <==> exists ls :: Fair(cfg, h, ls) && Reached(cfg, ls).inst.InstanceCompleted?
  {
    if Acyclic(cfg.defs) {
      var ls := Drain(cfg, h, []);
      ls := Finish(cfg, h, ls);
      assert Fair(cfg, h, ls) && Reached(cfg, ls).inst.InstanceCompleted?;
    } else {
      var n :| n in cfg.defs && Doomed(cfg.defs, n);
      forall ls ensures !Reached(cfg, ls).inst.InstanceCompleted? {
        CyclicStaysPending(cfg, ls, n);
      }
    }
  }
}
