/** What the remote service answered decides how an http step ends, in every run: crashes and
    overlapping triggers of other steps make no difference. */
module Answers {
  import opened Types
  import opened Protocol
  import opened Safety
  import opened Actions
  import opened Effects
  import opened Progress

  /** A finished row of an http step holds what was answered to its input. */
  ghost predicate RowAnswered(r: Row, facts: set<Fact>, n: string)
  {
    && (r.status.Completed? ==> AnswerFact(n, r.input, Success(r.output)) in facts)
    && (r.status.Failed? ==> r.error != "" && AnswerFact(n, r.input, Failure(r.error)) in facts)
  }

  /** What a call is about to send or to write. */
  ghost predicate CallAnswered(cfg: Config, rows: Table, facts: set<Fact>, pc: Pc)
  {
    match pc
    case Sending(n, input) => n in rows && input == rows[n].input
    case Failing(n, e) => n in rows && AnswerFact(n, rows[n].input, Failure(e)) in facts
    case Completing(n, out) =>
      n in cfg.defs && cfg.defs[n].trigger.Http? ==> n in rows && AnswerFact(n, rows[n].input, Success(out)) in facts
    case _ => true
  }

  /** The only answer for step n is the given one, to the given input. */
  ghost predicate OnlyAnswer(facts: set<Fact>, n: string, input: Json, answer: HttpResult)
  {
    forall i, a :: AnswerFact(n, i, a) in facts ==> i == input && a == answer
  }

  /** The answer answers the one request for a claimed http step, which carried its input. */
  ghost predicate AnswerOk(cfg: Config, s: State, n: string, input: Json, answer: HttpResult)
  {
    AnswerFact(n, input, answer) in s.facts ==>
      && n in cfg.defs && cfg.defs[n].trigger.Http? && n in s.rows && !s.rows[n].status.Pending?
      && s.rows[n].input == input && s.effects[Sent(n)] > 0 && OnlyAnswer(s.facts, n, input, answer)
  }

  ghost predicate Answered(cfg: Config, s: State)
  {
    && (forall n :: n in s.rows && n in cfg.defs && cfg.defs[n].trigger.Http? ==> RowAnswered(s.rows[n], s.facts, n))
    && (forall i :: 0 <= i < |s.calls| ==> CallAnswered(cfg, s.rows, s.facts, s.calls[i]))
    && (forall n, input, answer :: AnswerOk(cfg, s, n, input, answer))
  }

  /** Claimed rows keep their inputs, and finished rows of http steps all that was answered. */
  ghost predicate InputsKept(cfg: Config, rows: Table, rows': Table)
  {
    forall n :: n in rows && n in cfg.defs && !rows[n].status.Pending? ==>
      && n in rows' && !rows'[n].status.Pending? && rows'[n].input == rows[n].input
  }

  lemma ActionKeepsInputs(cfg: Config, s: State, pc: Pc, a: Action)
    requires cfg.Valid() && PcOk(cfg, s.rows, pc) && Fires(cfg, s, pc, a)
    ensures InputsKept(cfg, s.rows, NextRows(s, a))
  {
    if a.Insert? { InsertIsNew(cfg, s.rows, pc.k); }
  }

  /** Calls that do not act. */
  lemma OtherAnswered(cfg: Config, rows: Table, rows': Table, facts: set<Fact>, facts': set<Fact>, pc: Pc)
    requires cfg.Valid() && PcOk(cfg, rows, pc) && CallAnswered(cfg, rows, facts, pc)
    requires InputsKept(cfg, rows, rows') && facts <= facts'
    ensures CallAnswered(cfg, rows', facts', pc)
  {
  }

  /** Nobody triggers an http step from outside. */
  lemma NeverWaits(cfg: Config, rows: Table, n: string)
    requires cfg.Valid() && RowsOk(cfg, rows) && n in rows && rows[n].status.Waiting()
    ensures n in cfg.defs && !cfg.defs[n].trigger.Http?
  {
    assert Along(cfg.defs[n].trigger, Pending, rows[n].status);
  }

  /** The call that acts. */
  lemma MoveAnswered(cfg: Config, s: State, pc: Pc, a: Action)
    requires cfg.Valid() && Fires(cfg, s, pc, a) && a.Move? && CallAnswered(cfg, s.rows, s.facts, pc)
    requires pc.Checking? && a.pc.Completing? ==> pc.n in cfg.defs && !cfg.defs[pc.n].trigger.Http?
    ensures CallAnswered(cfg, s.rows, s.facts + Learned(a), a.pc)
  {
  }

  lemma ClaimAnswered(cfg: Config, s: State, pc: Pc, a: Action)
    requires cfg.Valid() && Fires(cfg, s, pc, a) && a.Claim?
    ensures CallAnswered(cfg, NextRows(s, a), s.facts + Learned(a), a.pc)
  {
  }

  lemma ActorAnswered(cfg: Config, s: State, pc: Pc, a: Action)
    requires cfg.Valid() && RowsOk(cfg, s.rows) && Fires(cfg, s, pc, a) && CallAnswered(cfg, s.rows, s.facts, pc)
    ensures CallAnswered(cfg, NextRows(s, a), s.facts + Learned(a), a.pc)
  {
    if a.Move? {
      if pc.Checking? && a.pc.Completing? { NeverWaits(cfg, s.rows, pc.n); }
      MoveAnswered(cfg, s, pc, a);
    } else if a.Claim? {
      ClaimAnswered(cfg, s, pc, a);
    }
  }

  lemma RowStaysAnswered(cfg: Config, s: State, pc: Pc, a: Action, n: string)
    requires cfg.Valid() && Fires(cfg, s, pc, a) && CallAnswered(cfg, s.rows, s.facts, pc)
    requires n in cfg.defs && cfg.defs[n].trigger.Http? && n in NextRows(s, a)
    requires n in s.rows ==> RowAnswered(s.rows[n], s.facts, n)
    ensures RowAnswered(NextRows(s, a)[n], s.facts + Learned(a), n)
  {
  }

  lemma AnswerStaysOk(cfg: Config, s: State, pc: Pc, a: Action, n: string, input: Json, answer: HttpResult)
    requires cfg.Valid() && PcOk(cfg, s.rows, pc) && Fires(cfg, s, pc, a) && CallAnswered(cfg, s.rows, s.facts, pc)
    requires forall i, r :: AnswerOk(cfg, s, n, i, r)
    requires pc.Sending? ==> s.effects[Sent(pc.n)] == 0
    requires InputsKept(cfg, s.rows, NextRows(s, a))
    requires AnswerFact(n, input, answer) in s.facts + Learned(a)
    ensures var rows' := NextRows(s, a);
            && n in cfg.defs && cfg.defs[n].trigger.Http? && n in rows' && !rows'[n].status.Pending?
            && rows'[n].input == input && s.effects[Sent(n)] + Emitted(a)[Sent(n)] > 0
            && OnlyAnswer(s.facts + Learned(a), n, input, answer)
  {
    EmittedOnce(a, Sent(n));
    assert AnswerOk(cfg, s, n, input, answer);
    forall i, r | AnswerFact(n, i, r) in s.facts + Learned(a) ensures i == input && r == answer {
      assert AnswerOk(cfg, s, n, i, r);
    }
  }

  lemma AnsweredAction(cfg: Config, s: State, i: nat, a: Action)
    requires cfg.Valid() && Inv(cfg, s) && Once(cfg, s) && Answered(cfg, s) && i < |s.calls|
    requires Fires(cfg, s, s.calls[i], a)
    ensures Answered(cfg, Perform(s, i, a))
  {
    var s', pc := Perform(s, i, a), s.calls[i];
    assert PcOk(cfg, s.rows, pc) && CallAnswered(cfg, s.rows, s.facts, pc);
    assert pc.Sending? ==> Debt(cfg, pc) == Some(Sent(pc.n));
    ActionKeepsInputs(cfg, s, pc, a);
    forall n | n in s'.rows && n in cfg.defs && cfg.defs[n].trigger.Http? ensures RowAnswered(s'.rows[n], s'.facts, n) {
      RowStaysAnswered(cfg, s, pc, a, n);
    }
    forall k | 0 <= k < |s'.calls| ensures CallAnswered(cfg, s'.rows, s'.facts, s'.calls[k]) {
      if k == i {
        ActorAnswered(cfg, s, pc, a);
      } else {
        assert PcOk(cfg, s.rows, s.calls[k]) && CallAnswered(cfg, s.rows, s.facts, s.calls[k]);
        OtherAnswered(cfg, s.rows, s'.rows, s.facts, s'.facts, s.calls[k]);
      }
    }
    forall n, input, answer ensures AnswerOk(cfg, s', n, input, answer) {
      if AnswerFact(n, input, answer) in s'.facts { AnswerStaysOk(cfg, s, pc, a, n, input, answer); }
    }
  }

  lemma KeepsAnswered(cfg: Config, s: State, l: Label)
    requires cfg.Valid() && Inv(cfg, s) && Once(cfg, s) && Answered(cfg, s)
    ensures Answered(cfg, Apply(cfg, s, l))
  {
    var s' := Apply(cfg, s, l);
    if l.Act? && l.i < |s.calls| {
      NextFires(cfg, s, s.calls[l.i], l.answer);
      AnsweredAction(cfg, s, l.i, Next(cfg, s, s.calls[l.i], l.answer));
    } else {
      forall n, input, answer ensures AnswerOk(cfg, s', n, input, answer) {
        assert AnswerOk(cfg, s, n, input, answer);
      }
    }
  }

  lemma {:induction false} AlwaysAnswered(cfg: Config, ls: seq<Label>)
    requires cfg.Valid()
    ensures Answered(cfg, Reached(cfg, ls))
  {
    if ls != [] {
      Always(cfg, ls[..|ls| - 1]);
      AlwaysOnce(cfg, ls[..|ls| - 1]);
      AlwaysAnswered(cfg, ls[..|ls| - 1]);
      KeepsAnswered(cfg, Reached(cfg, ls[..|ls| - 1]), ls[|ls| - 1]);
    }
  }

  /** In every reachable state an http step has been answered at most once, to the input with
      which it was claimed; a completed one holds the payload of that answer as output, a
      failed one its message as error. */
  lemma HttpOutcome(cfg: Config, ls: seq<Label>, n: string)
    requires cfg.Valid() && n in cfg.defs && cfg.defs[n].trigger.Http? && n in Reached(cfg, ls).rows
    ensures var s := Reached(cfg, ls); var r := s.rows[n];
            && (r.status.Completed? ==> AnswerFact(n, r.input, Success(r.output)) in s.facts)
            && (r.status.Failed? ==> r.error != "" && AnswerFact(n, r.input, Failure(r.error)) in s.facts)
            && (forall i, a, i', a' :: AnswerFact(n, i, a) in s.facts && AnswerFact(n, i', a') in s.facts ==>
                  i == i' == r.input && a == a')
  {
    AlwaysAnswered(cfg, ls);
    var s := Reached(cfg, ls);
    forall i, a, i', a' | AnswerFact(n, i, a) in s.facts && AnswerFact(n, i', a') in s.facts
      ensures i == i' == s.rows[n].input && a == a'
    {
      assert AnswerOk(cfg, s, n, i, a) && AnswerOk(cfg, s, n, i', a');
    }
  }

  /** Without crashes, once all calls have returned, the answer decides the outcome: success
      completes the step with the payload, failure fails it with the message. */
  lemma AnswerDecides(cfg: Config, ls: seq<Label>, n: string, input: Json, answer: HttpResult)
    requires cfg.Valid() && CrashFree(ls) && Quiescent(Reached(cfg, ls))
    requires AnswerFact(n, input, answer) in Reached(cfg, ls).facts
    ensures n in Reached(cfg, ls).rows
    ensures var r := Reached(cfg, ls).rows[n];
            match answer
            case Success(out) => r.status.Completed? && r.output == out && r.input == input
            case Failure(message) => r.status.Failed? && r.error == message && r.input == input
  {
    var s := Reached(cfg, ls);
    Always(cfg, ls);
    AlwaysAnswered(cfg, ls);
    AtRest(cfg, ls);
    assert AnswerOk(cfg, s, n, input, answer);
    HttpOutcome(cfg, ls, n);
    assert Along(cfg.defs[n].trigger, Pending, s.rows[n].status);
  }
}
