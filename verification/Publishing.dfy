/** Publishing a completed step's output. */
module Publishing {
  import opened Types
  import opened Protocol
  import opened Safety
  import opened Actions
  import opened Counting
  import opened DataFlow

  // ---- Only what was written, and only once per write ----

  /** 1 for a call that has completed step n and is about to publish. */
  function AboutToPublish(n: string): Pc -> nat
  {
    (pc: Pc) => if pc.Publishing? && pc.n == n then 1 else 0
  }

  ghost predicate PublishedWrites(cfg: Config, s: State)
  {
    && (forall n, out :: PublishFact(n, out) in s.facts ==>
          WriteFact(n, out) in s.facts && Publishes(cfg, n, out) && s.effects[Published(n)] > 0)
    && (forall n :: s.effects[Published(n)] > 0 ==> exists out :: PublishFact(n, out) in s.facts)
    && (forall i :: 0 <= i < |s.calls| && s.calls[i].Publishing? ==>
          WriteFact(s.calls[i].n, s.calls[i].out) in s.facts)
  }

  ghost predicate PublishedOncePerWrite(s: State, n: string)
  {
    s.effects[Published(n)] + Sum(s.calls, AboutToPublish(n)) <= s.effects[Wrote(n)]
  }

  lemma PublishCost(cfg: Config, s: State, pc: Pc, a: Action, n: string)
    requires cfg.Valid() && Fires(cfg, s, pc, a)
    ensures Emitted(a)[Published(n)] + AboutToPublish(n)(a.pc) <= AboutToPublish(n)(pc) + Emitted(a)[Wrote(n)]
  {
    EmittedOnce(a, Published(n));
    EmittedOnce(a, Wrote(n));
  }

  /** A published fact comes from a call that was about to publish. */
  lemma PublishSource(cfg: Config, s: State, pc: Pc, a: Action)
    requires cfg.Valid() && Fires(cfg, s, pc, a)
    ensures forall n, out :: PublishFact(n, out) in Learned(a) <==>
              pc == Publishing(n, out) && Publishes(cfg, n, out)
    ensures forall n :: Emitted(a)[Published(n)] > 0 <==>
              pc.Publishing? && pc.n == n && Publishes(cfg, n, pc.out)
    ensures a.pc.Publishing? ==> WriteFact(a.pc.n, a.pc.out) in Learned(a)
  {
  }

  lemma PublishedAction(cfg: Config, s: State, i: nat, a: Action)
    requires cfg.Valid() && PublishedWrites(cfg, s) && i < |s.calls| && Fires(cfg, s, s.calls[i], a)
    ensures PublishedWrites(cfg, Perform(s, i, a))
  {
    var s' := Perform(s, i, a);
    PublishSource(cfg, s, s.calls[i], a);
    forall n | s'.effects[Published(n)] > 0
      ensures exists out :: PublishFact(n, out) in s'.facts
    {
      if Emitted(a)[Published(n)] > 0 {
        assert PublishFact(n, s.calls[i].out) in s'.facts;
      } else {
        var out :| PublishFact(n, out) in s.facts;
        assert PublishFact(n, out) in s'.facts;
      }
    }
  }

  lemma PublishedAct(cfg: Config, s: State, i: nat, answer: HttpResult, n: string)
    requires cfg.Valid() && PublishedWrites(cfg, s) && PublishedOncePerWrite(s, n) && i < |s.calls|
    ensures var s' := Apply(cfg, s, Act(i, answer)); PublishedWrites(cfg, s') && PublishedOncePerWrite(s', n)
  {
    var a := Next(cfg, s, s.calls[i], answer);
    NextFires(cfg, s, s.calls[i], answer);
    PublishedAction(cfg, s, i, a);
    SumUpdate(s.calls, i, a.pc, AboutToPublish(n));
    PublishCost(cfg, s, s.calls[i], a, n);
  }

  lemma PublishedOutside(cfg: Config, s: State, l: Label, n: string)
    requires cfg.Valid() && PublishedWrites(cfg, s) && PublishedOncePerWrite(s, n) && !l.Act?
    ensures var s' := Apply(cfg, s, l); PublishedWrites(cfg, s') && PublishedOncePerWrite(s', n)
  {
    var s' := Apply(cfg, s, l);
    assert s'.facts == s.facts && forall m :: s'.effects[Published(m)] == s.effects[Published(m)];
    assert s'.effects[Wrote(n)] == s.effects[Wrote(n)];
    match l
    case Crash(i) => if i < |s.calls| { SumUpdate(s.calls, i, Done, AboutToPublish(n)); }
    case Trigger(m, out) => SumAppend(s.calls, Checking(m, out), AboutToPublish(n));
    case Tick(_) =>
  }

  /** In every reachable state a published output was written before by a completing call,
      is not empty and has a topic; and no write is published twice. */
  lemma {:induction false} PublishAfterWrite(cfg: Config, ls: seq<Label>, n: string)
    requires cfg.Valid()
    ensures PublishedWrites(cfg, Reached(cfg, ls)) && PublishedOncePerWrite(Reached(cfg, ls), n)
    ensures Reached(cfg, ls).effects[Published(n)] <= Reached(cfg, ls).effects[Wrote(n)]
  {
    if ls == [] {
      SumZero(Init().calls, AboutToPublish(n));
    } else {
      PublishAfterWrite(cfg, ls[..|ls| - 1], n);
      var s, l := Reached(cfg, ls[..|ls| - 1]), ls[|ls| - 1];
      if l.Act? {
        if l.i < |s.calls| { PublishedAct(cfg, s, l.i, l.answer, n); }
      } else {
        PublishedOutside(cfg, s, l, n);
      }
    }
  }

  // ---- With one trigger in flight per step, each step is written once ----

  ghost predicate OneWrite(cfg: Config, s: State)
  {
    && (forall n :: n in cfg.defs ==>
          s.effects[Wrote(n)] == if n in s.rows && s.rows[n].status.Completed? then 1 else 0)
    && (forall n, out :: WriteFact(n, out) in s.facts ==>
          n in s.rows && s.rows[n].status.Completed? && s.rows[n].output == out)
    && (forall n :: n in s.rows && s.rows[n].status.Completed? ==> WriteFact(n, s.rows[n].output) in s.facts)
  }

  lemma OneWriteComplete(cfg: Config, s: State, i: nat, n: string, out: Json, pc: Pc)
    requires cfg.Valid() && OneWrite(cfg, s) && i < |s.calls| && n in s.rows && !s.rows[n].status.Completed?
    ensures OneWrite(cfg, Perform(s, i, Complete(n, out, pc)))
  {
  }

  lemma OneWriteOther(cfg: Config, s: State, i: nat, a: Action)
    requires cfg.Valid() && OneWrite(cfg, s) && i < |s.calls| && !a.Complete?
    requires a.Move? && a.effect.Some? ==> !a.effect.value.Wrote?
    requires a.Move? && a.fact.Some? ==> !a.fact.value.WriteFact?
    requires a.Insert? ==> a.n !in s.rows
    requires a.Fail? || a.Claim? ==> a.n in s.rows && !s.rows[a.n].status.Completed?
    requires a.Claim? ==> !a.status.Completed?
    ensures OneWrite(cfg, Perform(s, i, a))
  {
    var s' := Perform(s, i, a);
    assert forall n :: s'.effects[Wrote(n)] == s.effects[Wrote(n)];
    assert forall n, out :: WriteFact(n, out) in s'.facts <==> WriteFact(n, out) in s.facts;
  }

  lemma MoveWritesNothing(cfg: Config, s: State, pc: Pc, a: Action)
    requires cfg.Valid() && Fires(cfg, s, pc, a) && a.Move?
    ensures a.effect.Some? ==> !a.effect.value.Wrote?
    ensures a.fact.Some? ==> !a.fact.value.WriteFact?
  {
  }

  lemma OneWriteAction(cfg: Config, s: State, i: nat, a: Action)
    requires cfg.Valid() && Inv(cfg, s) && Orderly(cfg, s.rows, s.calls) && OneWrite(cfg, s) && i < |s.calls|
    requires Fires(cfg, s, s.calls[i], a)
    ensures OneWrite(cfg, Perform(s, i, a))
  {
    assert PcOk(cfg, s.rows, s.calls[i]);
    match a
    case Complete(n, out, pc) => OneWriteComplete(cfg, s, i, n, out, pc);
    case Move(_, _, _) => MoveWritesNothing(cfg, s, s.calls[i], a); OneWriteOther(cfg, s, i, a);
    case Insert(_, _) => InsertIsNew(cfg, s.rows, s.calls[i].k); OneWriteOther(cfg, s, i, a);
    case _ => OneWriteOther(cfg, s, i, a);
  }

  lemma KeepsOneWrite(cfg: Config, s: State, l: Label)
    requires cfg.Valid() && Inv(cfg, s) && Orderly(cfg, s.rows, s.calls) && OneWrite(cfg, s)
    ensures OneWrite(cfg, Apply(cfg, s, l))
  {
    if l.Act? && l.i < |s.calls| {
      NextFires(cfg, s, s.calls[l.i], l.answer);
      OneWriteAction(cfg, s, l.i, Next(cfg, s, s.calls[l.i], l.answer));
    } else {
      assert forall n :: Apply(cfg, s, l).effects[Wrote(n)] == s.effects[Wrote(n)];
    }
  }

  lemma {:induction false} AlwaysOneWrite(cfg: Config, ls: seq<Label>)
    requires cfg.Valid() && Serialized(cfg, Init(), ls)
    ensures OneWrite(cfg, Reached(cfg, ls))
  {
    if ls != [] {
      Always(cfg, ls[..|ls| - 1]);
      AlwaysOrderly(cfg, ls[..|ls| - 1]);
      AlwaysOneWrite(cfg, ls[..|ls| - 1]);
      KeepsOneWrite(cfg, Reached(cfg, ls[..|ls| - 1]), ls[|ls| - 1]);
    }
  }

  // ---- Without crashes every write that should be published is ----

  ghost predicate ToPublish(calls: seq<Pc>, n: string, out: Json)
  {
    exists i :: 0 <= i < |calls| && calls[i] == Publishing(n, out)
  }

  ghost predicate NoneForgotten(cfg: Config, s: State)
  {
    forall n, out :: WriteFact(n, out) in s.facts && Publishes(cfg, n, out) ==>
      PublishFact(n, out) in s.facts || ToPublish(s.calls, n, out)
  }

  lemma MoveOrWrite(cfg: Config, s: State, pc: Pc, a: Action, n: string, out: Json)
    requires cfg.Valid() && Fires(cfg, s, pc, a) && WriteFact(n, out) in Learned(a)
    ensures a.pc == Publishing(n, out)
  {
    if a.Move? { MoveWritesNothing(cfg, s, pc, a); }
  }

  lemma NotForgotten(cfg: Config, s: State, l: Label, n: string, out: Json)
    requires cfg.Valid() && NoneForgotten(cfg, s) && !l.Crash?
    requires WriteFact(n, out) in Apply(cfg, s, l).facts && Publishes(cfg, n, out)
    ensures PublishFact(n, out) in Apply(cfg, s, l).facts || ToPublish(Apply(cfg, s, l).calls, n, out)
  {
    var s' := Apply(cfg, s, l);
    if WriteFact(n, out) in s.facts {
      if PublishFact(n, out) !in s.facts {
        var k :| 0 <= k < |s.calls| && s.calls[k] == Publishing(n, out);
        if !(l.Act? && l.i == k) { assert s'.calls[k] == s.calls[k]; }
      }
    } else {
      NextFires(cfg, s, s.calls[l.i], l.answer);
      MoveOrWrite(cfg, s, s.calls[l.i], Next(cfg, s, s.calls[l.i], l.answer), n, out);
      assert s'.calls[l.i] == Publishing(n, out);
    }
  }

  lemma KeepsNoneForgotten(cfg: Config, s: State, l: Label)
    requires cfg.Valid() && NoneForgotten(cfg, s) && !l.Crash?
    ensures NoneForgotten(cfg, Apply(cfg, s, l))
  {
    var s' := Apply(cfg, s, l);
    if l.Act? && l.i < |s.calls| {
      NextFires(cfg, s, s.calls[l.i], l.answer);
    }
    forall n, out | WriteFact(n, out) in s'.facts && Publishes(cfg, n, out)
      ensures PublishFact(n, out) in s'.facts || ToPublish(s'.calls, n, out)
    {
      NotForgotten(cfg, s, l, n, out);
    }
  }

  lemma {:induction false} AlwaysNoneForgotten(cfg: Config, ls: seq<Label>)
    requires cfg.Valid() && CrashFree(ls)
    ensures NoneForgotten(cfg, Reached(cfg, ls))
  {
    if ls != [] {
      AlwaysNoneForgotten(cfg, ls[..|ls| - 1]);
      KeepsNoneForgotten(cfg, Reached(cfg, ls[..|ls| - 1]), ls[|ls| - 1]);
    }
  }

  /** With at most one trigger in flight per step, when all calls have returned without a
      crash, a step was published exactly once if it is completed with a non-empty output and
      has a topic, with that output, and never otherwise. */
  lemma PublishedExactly(cfg: Config, ls: seq<Label>, n: string)
    requires cfg.Valid() && CrashFree(ls) && Serialized(cfg, Init(), ls) && Quiescent(Reached(cfg, ls))
    requires n in cfg.defs && n in Reached(cfg, ls).rows
    ensures var s := Reached(cfg, ls); var r := s.rows[n];
            var due := r.status.Completed? && Publishes(cfg, n, r.output);
            && s.effects[Published(n)] == (if due then 1 else 0)
            && forall out :: PublishFact(n, out) in s.facts <==> due && out == r.output
  {
    PublishAfterWrite(cfg, ls, n);
    AlwaysOneWrite(cfg, ls);
    AlwaysNoneForgotten(cfg, ls);
    var s := Reached(cfg, ls);
    assert forall m, out :: !ToPublish(s.calls, m, out);
  }

  // ---- However the triggers overlap ----

  /** 1 for a call that has yet to publish a non-empty output of step n. */
  function YetToPublish(n: string): Pc -> nat
  {
    (pc: Pc) => if (pc.Completing? || pc.Publishing?) && pc.n == n && pc.out != Absent then 1 else 0
  }

  /** The call is about to accept a trigger of step n with a non-empty output. */
  predicate AcceptsOutput(s: State, pc: Pc, n: string)
  {
    pc.Checking? && pc.n == n && pc.out != Absent && n in s.rows && s.rows[n].status.Waiting()
  }

  /** The accepted triggers of step n with a non-empty output. */
  ghost function AcceptedOutputs(cfg: Config, ls: seq<Label>, n: string): nat
    requires cfg.Valid()
  {
    if ls == [] then 0
    else
      var s, l := Reached(cfg, ls[..|ls| - 1]), ls[|ls| - 1];
      AcceptedOutputs(cfg, ls[..|ls| - 1], n)
      + if l.Act? && l.i < |s.calls| && AcceptsOutput(s, s.calls[l.i], n) then 1 else 0
  }

  lemma AcceptedCost(cfg: Config, s: State, pc: Pc, a: Action, n: string)
    requires cfg.Valid() && Fires(cfg, s, pc, a) && (pc.Sending? ==> RunsHttp(cfg, s.rows, pc.n))
    requires n in cfg.defs && Activated(cfg.defs[n].trigger) && cfg.defs[n].publishTopic != ""
    ensures Emitted(a)[Published(n)] + YetToPublish(n)(a.pc)
         == YetToPublish(n)(pc) + if AcceptsOutput(s, pc, n) then 1 else 0
  {
    EmittedOnce(a, Published(n));
  }

  lemma {:induction false} PublishedOrYetTo(cfg: Config, ls: seq<Label>, n: string)
    requires cfg.Valid() && CrashFree(ls)
    requires n in cfg.defs && Activated(cfg.defs[n].trigger) && cfg.defs[n].publishTopic != ""
    ensures var s := Reached(cfg, ls);
            s.effects[Published(n)] + Sum(s.calls, YetToPublish(n)) == AcceptedOutputs(cfg, ls, n)
  {
    if ls == [] {
      SumZero(Init().calls, YetToPublish(n));
    } else {
      var before, l := ls[..|ls| - 1], ls[|ls| - 1];
      var s := Reached(cfg, before);
      Always(cfg, before);
      PublishedOrYetTo(cfg, before, n);
      if l.Act? && l.i < |s.calls| {
        var a := Next(cfg, s, s.calls[l.i], l.answer);
        NextFires(cfg, s, s.calls[l.i], l.answer);
        AcceptedCost(cfg, s, s.calls[l.i], a, n);
        SumUpdate(s.calls, l.i, a.pc, YetToPublish(n));
      } else if l.Trigger? {
        SumAppend(s.calls, Checking(l.n, l.out), YetToPublish(n));
      }
    }
  }

  /** However triggers overlap, when all calls have returned without a crash a manual or
      queueti step with a topic was published once for each accepted trigger with a non-empty
      output. */
  lemma PublishedPerTrigger(cfg: Config, ls: seq<Label>, n: string)
    requires cfg.Valid() && CrashFree(ls) && Quiescent(Reached(cfg, ls))
    requires n in cfg.defs && Activated(cfg.defs[n].trigger) && cfg.defs[n].publishTopic != ""
    ensures Reached(cfg, ls).effects[Published(n)] == AcceptedOutputs(cfg, ls, n)
  {
    PublishedOrYetTo(cfg, ls, n);
    SumZero(Reached(cfg, ls).calls, YetToPublish(n));
  }
}
