/** Exactly one winner: over any run, on any number of nodes, each effect of a won claim
    happens at most once; without crashes, exactly once. */
module Effects {
  import opened Types
  import opened Protocol
  import opened Safety
  import opened Actions

  /** Effects that only the winner of a claim may produce. */
  predicate Winners(e: Effect)
  {
    e.Sent? || e.Notified? || e.Watched? || e.TerminalEvent?
  }

  ghost predicate Claimed(s: State, e: Effect)
  {
    match e
    case TerminalEvent => !s.inst.InstanceRunning?
    case Snapshot => true
    case TriggerCall => true
    case _ => e.n in s.rows && !s.rows[e.n].status.Pending?
  }

  /** The effect fits the trigger type of the step. */
  predicate Fits(cfg: Config, e: Effect)
  {
    match e
    case Sent(n) => n in cfg.defs && cfg.defs[n].trigger.Http?
    case Notified(n) => n in cfg.defs && cfg.defs[n].trigger.Manual?
    case Watched(n) => n in cfg.defs && cfg.defs[n].trigger.QueueTi? && cfg.poller
    case Accepted(n) => n in cfg.defs && Activated(cfg.defs[n].trigger)
    case _ => true
  }

  /** The effect that a call still owes for its won claim. */
  function Debt(cfg: Config, pc: Pc): Option<Effect>
  {
    match pc
    case Sending(n, _) => Some(Sent(n))
    case Announcing(_, j) => if j < |cfg.order| then Some(Notified(cfg.order[j])) else None
    case Watching(_, j) => if cfg.poller && j < |cfg.order| then Some(Watched(cfg.order[j])) else None
    case Reporting(_) => Some(TerminalEvent)
    case _ => None
  }

  ghost predicate Once(cfg: Config, s: State)
  {
    && (forall e :: Winners(e) ==> s.effects[e] <= (if Claimed(s, e) then 1 else 0))
    && (forall e :: s.effects[e] > 0 ==> Fits(cfg, e))
    && (forall i :: 0 <= i < |s.calls| && Debt(cfg, s.calls[i]).Some? ==>
          s.effects[Debt(cfg, s.calls[i]).value] == 0)
  }

  /** Output writes of auto and http steps. */
  ghost predicate WrittenOnce(cfg: Config, s: State)
  {
    forall n :: n in cfg.defs && !Activated(cfg.defs[n].trigger) ==>
      s.effects[Wrote(n)] == if n in s.rows && s.rows[n].status.Completed? then 1 else 0
  }

  lemma DebtFacts(cfg: Config, s: State, i: nat)
    requires cfg.Valid() && Inv(cfg, s) && i < |s.calls| && Debt(cfg, s.calls[i]).Some?
    ensures var e := Debt(cfg, s.calls[i]).value;
            && Winners(e) && Claimed(s, e) && Fits(cfg, e)
            && forall k :: 0 <= k < |s.calls| && k != i ==> Debt(cfg, s.calls[k]) != Some(e)
  {
    assert PcOk(cfg, s.rows, s.calls[i]) && TicketOk(s.rows, s.inst, Holds(cfg, s.calls[i]));
    forall k | 0 <= k < |s.calls| && k != i
      ensures Debt(cfg, s.calls[k]) != Debt(cfg, s.calls[i])
    {
      assert Holds(cfg, s.calls[i]) != Holds(cfg, s.calls[k]);
      assert PcOk(cfg, s.rows, s.calls[k]);
    }
  }

  /** Moving on pays the debt of the call, and makes none. */
  lemma MovePays(cfg: Config, s: State, pc: Pc, a: Action)
    requires cfg.Valid() && Fires(cfg, s, pc, a) && a.Move?
    ensures Debt(cfg, a.pc) == None
    ensures a.effect.Some? && (Winners(a.effect.value) || a.effect.value.Wrote?) ==> a.effect == Debt(cfg, pc)
    ensures Debt(cfg, pc).Some? ==> a.effect == Debt(cfg, pc)
  {
  }

  /** A trigger is accepted for a manual or queueti step only. */
  lemma AcceptFits(cfg: Config, s: State, pc: Pc, a: Action)
    requires cfg.Valid() && RowsOk(cfg, s.rows) && Fires(cfg, s, pc, a)
    requires a.Move? && a.effect.Some? && a.effect.value.Accepted?
    ensures Fits(cfg, a.effect.value)
  {
    assert Along(cfg.defs[pc.n].trigger, Pending, s.rows[pc.n].status);
  }

  /** The effect is claimed, fits, and is owed by call i alone. */
  ghost predicate OwedAlone(cfg: Config, s: State, i: nat, e: Effect)
  {
    Winners(e) && Claimed(s, e) && Fits(cfg, e)
    && forall k :: 0 <= k < |s.calls| && k != i ==> Debt(cfg, s.calls[k]) != Some(e)
  }

  lemma OnceMove(cfg: Config, s: State, i: nat, a: Action)
    requires cfg.Valid() && Once(cfg, s) && i < |s.calls|
    requires a.Move? && Debt(cfg, a.pc) == None
    requires a.effect.Some? && a.effect.value.Accepted? ==> Fits(cfg, a.effect.value)
    requires a.effect.Some? && Winners(a.effect.value) ==> a.effect == Debt(cfg, s.calls[i])
    requires Debt(cfg, s.calls[i]).Some? ==> OwedAlone(cfg, s, i, Debt(cfg, s.calls[i]).value)
    ensures Once(cfg, Perform(s, i, a))
  {
    var s' := Perform(s, i, a);
    assert forall e :: Claimed(s', e) == Claimed(s, e);
    assert forall e :: s'.effects[e] == s.effects[e] + if a.effect == Some(e) then 1 else 0;
  }

  /** Inserting and updating rows unclaims nothing. */
  lemma OnceWrite(cfg: Config, s: State, i: nat, a: Action)
    requires cfg.Valid() && Once(cfg, s) && i < |s.calls|
    requires a.Insert? ==> a.n !in s.rows
    requires a.Insert? || a.Complete? || a.Fail?
    requires Debt(cfg, a.pc) == None
    ensures Once(cfg, Perform(s, i, a))
  {
    var s' := Perform(s, i, a);
    forall e | Winners(e) ensures s'.effects[e] == s.effects[e] && (Claimed(s, e) ==> Claimed(s', e)) {
      EmittedOnce(a, e);
    }
  }

  lemma OnceClaim(cfg: Config, s: State, i: nat, a: Action)
    requires cfg.Valid() && Once(cfg, s) && i < |s.calls|
    requires Fires(cfg, s, s.calls[i], a) && a.Claim?
    ensures Once(cfg, Perform(s, i, a))
  {
    var s' := Perform(s, i, a);
    assert forall e :: Winners(e) && Claimed(s, e) ==> Claimed(s', e);
    if Debt(cfg, a.pc).Some? {
      assert !Claimed(s, Debt(cfg, a.pc).value) && Winners(Debt(cfg, a.pc).value);
    }
  }

  lemma OnceEnd(cfg: Config, s: State, i: nat, a: Action)
    requires cfg.Valid() && Once(cfg, s) && i < |s.calls|
    requires Fires(cfg, s, s.calls[i], a) && a.End? && !a.inst.InstanceRunning?
    ensures Once(cfg, Perform(s, i, a))
  {
    var s' := Perform(s, i, a);
    assert forall e :: Winners(e) && Claimed(s, e) ==> Claimed(s', e);
    assert !Claimed(s, TerminalEvent);
  }

  lemma OnceAction(cfg: Config, s: State, i: nat, a: Action)
    requires cfg.Valid() && Inv(cfg, s) && Once(cfg, s) && i < |s.calls|
    requires Fires(cfg, s, s.calls[i], a)
    ensures Once(cfg, Perform(s, i, a))
  {
    assert PcOk(cfg, s.rows, s.calls[i]);
    match a
    case Move(_, effect, _) =>
      MovePays(cfg, s, s.calls[i], a);
      if effect.Some? && effect.value.Accepted? { AcceptFits(cfg, s, s.calls[i], a); }
      if Debt(cfg, s.calls[i]).Some? { DebtFacts(cfg, s, i); }
      OnceMove(cfg, s, i, a);
    case Claim(_, _, _, _) => OnceClaim(cfg, s, i, a);
    case End(_, _) => OnceEnd(cfg, s, i, a);
    case Insert(_, _) => InsertIsNew(cfg, s.rows, s.calls[i].k); OnceWrite(cfg, s, i, a);
    case _ => OnceWrite(cfg, s, i, a);
  }

  lemma WrittenComplete(cfg: Config, s: State, i: nat, n: string, out: Json, pc: Pc)
    requires cfg.Valid() && WrittenOnce(cfg, s) && i < |s.calls| && n in s.rows && n in cfg.defs
    requires !Activated(cfg.defs[n].trigger) ==> !s.rows[n].status.Completed?
    ensures WrittenOnce(cfg, Perform(s, i, Complete(n, out, pc)))
  {
  }

  lemma WrittenOther(cfg: Config, s: State, i: nat, a: Action)
    requires cfg.Valid() && WrittenOnce(cfg, s) && i < |s.calls| && !a.Complete?
    requires a.Move? && a.effect.Some? ==> !a.effect.value.Wrote?
    requires a.Insert? ==> a.n !in s.rows
    requires a.Fail? || a.Claim? ==> a.n in s.rows && !s.rows[a.n].status.Completed?
    requires a.Claim? ==> !a.status.Completed?
    ensures WrittenOnce(cfg, Perform(s, i, a))
  {
    assert forall n :: Perform(s, i, a).effects[Wrote(n)] == s.effects[Wrote(n)];
  }

  lemma WrittenAction(cfg: Config, s: State, i: nat, a: Action)
    requires cfg.Valid() && Inv(cfg, s) && WrittenOnce(cfg, s) && i < |s.calls|
    requires Fires(cfg, s, s.calls[i], a)
    ensures WrittenOnce(cfg, Perform(s, i, a))
  {
    assert PcOk(cfg, s.rows, s.calls[i]);
    match a
    case Complete(n, out, pc) => WrittenComplete(cfg, s, i, n, out, pc);
    case Move(_, _, _) => MovePays(cfg, s, s.calls[i], a); WrittenOther(cfg, s, i, a);
    case Insert(_, _) => InsertIsNew(cfg, s.rows, s.calls[i].k); WrittenOther(cfg, s, i, a);
    case _ => WrittenOther(cfg, s, i, a);
  }

  lemma NextOnce(cfg: Config, s: State, i: nat, answer: HttpResult)
    requires cfg.Valid() && Inv(cfg, s) && Once(cfg, s) && WrittenOnce(cfg, s) && i < |s.calls|
    ensures var s' := Perform(s, i, Next(cfg, s, s.calls[i], answer)); Once(cfg, s') && WrittenOnce(cfg, s')
  {
    NextFires(cfg, s, s.calls[i], answer);
    OnceAction(cfg, s, i, Next(cfg, s, s.calls[i], answer));
    WrittenAction(cfg, s, i, Next(cfg, s, s.calls[i], answer));
  }

  /** Only calls without a debt are new, and only calls of TriggerStep are counted anew. */
  ghost predicate AddsNoDebt(cfg: Config, s: State, s': State)
  {
    && s'.rows == s.rows && s'.inst == s.inst
    && (forall e: Effect :: e != TriggerCall ==> s'.effects[e] == s.effects[e])
    && (forall i :: 0 <= i < |s'.calls| && Debt(cfg, s'.calls[i]).Some? ==> i < |s.calls| && s'.calls[i] == s.calls[i])
  }

  lemma OutsideAddsNoDebt(cfg: Config, s: State, l: Label)
    requires cfg.Valid() && !(l.Act? && l.i < |s.calls|)
    ensures AddsNoDebt(cfg, s, Apply(cfg, s, l))
  {
  }

  lemma OnceStays(cfg: Config, s: State, s': State)
    requires cfg.Valid() && Once(cfg, s) && WrittenOnce(cfg, s) && AddsNoDebt(cfg, s, s')
    ensures Once(cfg, s') && WrittenOnce(cfg, s')
  {
    assert forall e :: Claimed(s', e) == Claimed(s, e);
  }

  /** Labels other than an action of a call. */
  lemma OnceOutside(cfg: Config, s: State, l: Label)
    requires cfg.Valid() && Once(cfg, s) && WrittenOnce(cfg, s) && !(l.Act? && l.i < |s.calls|)
    ensures Once(cfg, Apply(cfg, s, l)) && WrittenOnce(cfg, Apply(cfg, s, l))
  {
    OutsideAddsNoDebt(cfg, s, l);
    OnceStays(cfg, s, Apply(cfg, s, l));
  }

  lemma KeepsOnce(cfg: Config, s: State, l: Label)
    requires cfg.Valid() && Inv(cfg, s) && Once(cfg, s) && WrittenOnce(cfg, s)
    ensures Once(cfg, Apply(cfg, s, l)) && WrittenOnce(cfg, Apply(cfg, s, l))
  {
    if l.Act? && l.i < |s.calls| {
      NextOnce(cfg, s, l.i, l.answer);
    } else {
      OnceOutside(cfg, s, l);
    }
  }

  lemma {:induction false} AlwaysOnce(cfg: Config, ls: seq<Label>)
    requires cfg.Valid()
    ensures Once(cfg, Reached(cfg, ls)) && WrittenOnce(cfg, Reached(cfg, ls))
  {
    if ls != [] {
      Always(cfg, ls[..|ls| - 1]);
      AlwaysOnce(cfg, ls[..|ls| - 1]);
      KeepsOnce(cfg, Reached(cfg, ls[..|ls| - 1]), ls[|ls| - 1]);
    }
  }

  /** At most one request per http step, one notification per manual step, one Watch per
      queueti step, one output write per auto or http step, one terminal event per instance;
      and none of them for a step of another type. */
  lemma AtMostOnce(cfg: Config, ls: seq<Label>, n: string)
    requires cfg.Valid() && n in cfg.defs
    ensures var effects := Reached(cfg, ls).effects;
            && effects[Sent(n)] <= (if cfg.defs[n].trigger.Http? then 1 else 0)
            && effects[Notified(n)] <= (if cfg.defs[n].trigger.Manual? then 1 else 0)
            && effects[Watched(n)] <= (if cfg.defs[n].trigger.QueueTi? && cfg.poller then 1 else 0)
            && (!Activated(cfg.defs[n].trigger) ==> effects[Wrote(n)] <= 1)
            && effects[TerminalEvent] <= 1
  {
    AlwaysOnce(cfg, ls);
    assert Winners(Sent(n)) && Winners(Notified(n)) && Winners(Watched(n)) && Winners(TerminalEvent);
  }

  // ---- Without crashes, nothing that is owed is lost ----

  ghost predicate Owes(cfg: Config, calls: seq<Pc>, e: Effect)
  {
    exists i :: 0 <= i < |calls| && Debt(cfg, calls[i]) == Some(e)
  }

  /** Every claimed effect has been produced or is owed by some call. */
  ghost predicate PaidOrOwed(cfg: Config, s: State)
  {
    forall e :: Winners(e) && Fits(cfg, e) && Claimed(s, e) ==> s.effects[e] >= 1 || Owes(cfg, s.calls, e)
  }

  lemma DebtKept(cfg: Config, s: State, i: nat, a: Action, e: Effect)
    requires cfg.Valid() && i < |s.calls| && Fires(cfg, s, s.calls[i], a)
    requires s.effects[e] >= 1 || Owes(cfg, s.calls, e)
    ensures var s' := Perform(s, i, a); s'.effects[e] >= 1 || Owes(cfg, s'.calls, e)
  {
    var s' := Perform(s, i, a);
    if s.effects[e] == 0 {
      var k :| 0 <= k < |s.calls| && Debt(cfg, s.calls[k]) == Some(e);
      if k == i {
        MovePays(cfg, s, s.calls[i], a);
      } else {
        assert s'.calls[k] == s.calls[k];
      }
    }
  }

  /** Whoever makes a claim owes its effect. */
  lemma NewDebt(cfg: Config, s: State, i: nat, a: Action, e: Effect)
    requires cfg.Valid() && i < |s.calls| && Fires(cfg, s, s.calls[i], a)
    requires Winners(e) && Fits(cfg, e) && !Claimed(s, e) && Claimed(Perform(s, i, a), e)
    requires a.Complete? || a.Fail? ==> a.n in s.rows && !s.rows[a.n].status.Pending?
    ensures Debt(cfg, a.pc) == Some(e)
  {
    assert a.Claim? || a.End?;
  }

  lemma PaidOrOwedAction(cfg: Config, s: State, i: nat, a: Action)
    requires cfg.Valid() && Inv(cfg, s) && PaidOrOwed(cfg, s) && i < |s.calls|
    requires Fires(cfg, s, s.calls[i], a)
    ensures PaidOrOwed(cfg, Perform(s, i, a))
  {
    var s' := Perform(s, i, a);
    assert PcOk(cfg, s.rows, s.calls[i]);
    forall e | Winners(e) && Fits(cfg, e) && Claimed(s', e)
      ensures s'.effects[e] >= 1 || Owes(cfg, s'.calls, e)
    {
      if Claimed(s, e) {
        DebtKept(cfg, s, i, a, e);
      } else {
        NewDebt(cfg, s, i, a, e);
        assert s'.calls[i] == a.pc;
      }
    }
  }

  lemma KeepsPaidOrOwed(cfg: Config, s: State, l: Label)
    requires cfg.Valid() && Inv(cfg, s) && PaidOrOwed(cfg, s) && !l.Crash?
    ensures PaidOrOwed(cfg, Apply(cfg, s, l))
  {
    if l.Act? && l.i < |s.calls| {
      NextFires(cfg, s, s.calls[l.i], l.answer);
      PaidOrOwedAction(cfg, s, l.i, Next(cfg, s, s.calls[l.i], l.answer));
    } else {
      var s' := Apply(cfg, s, l);
      assert forall k :: 0 <= k < |s.calls| ==> s'.calls[k] == s.calls[k];
      assert forall e :: Claimed(s', e) == Claimed(s, e);
    }
  }

  lemma {:induction false} AlwaysPaidOrOwed(cfg: Config, ls: seq<Label>)
    requires cfg.Valid() && CrashFree(ls)
    ensures PaidOrOwed(cfg, Reached(cfg, ls))
  {
    if ls != [] {
      Always(cfg, ls[..|ls| - 1]);
      AlwaysPaidOrOwed(cfg, ls[..|ls| - 1]);
      KeepsPaidOrOwed(cfg, Reached(cfg, ls[..|ls| - 1]), ls[|ls| - 1]);
    }
  }

  lemma NothingOwed(cfg: Config, calls: seq<Pc>, e: Effect)
    requires forall i :: 0 <= i < |calls| ==> calls[i].Done?
    ensures !Owes(cfg, calls, e)
  {
  }

  /** Once every call has returned without a crash, each claim has had its effect exactly
      once, and what was not claimed has had none. */
  lemma ExactlyOnce(cfg: Config, ls: seq<Label>, e: Effect)
    requires cfg.Valid() && CrashFree(ls) && Quiescent(Reached(cfg, ls))
    requires Winners(e) && Fits(cfg, e)
    ensures var s := Reached(cfg, ls); s.effects[e] == (if Claimed(s, e) then 1 else 0)
  {
    AlwaysOnce(cfg, ls);
    AlwaysPaidOrOwed(cfg, ls);
    NothingOwed(cfg, Reached(cfg, ls).calls, e);
  }
}
