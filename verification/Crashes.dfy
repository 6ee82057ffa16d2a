/** What a crash does: the call never acts again, and what it had claimed stays claimed. */
module Crashes {
  import opened Types
  import opened Protocol
  import opened Safety
  import opened Actions
  import opened Lifecycle
  import opened Effects
  import opened Progress

  // ---- A crashed call never acts again ----

  /** The database, what has left the engine, and the other calls are as they were. */
  ghost predicate OnlyStops(s: State, s': State, i: nat)
  {
    && s'.rows == s.rows && s'.inst == s.inst && s'.clock == s.clock
    && s'.effects == s.effects && s'.facts == s.facts && s'.done == s.done
    && |s'.calls| == |s.calls| && forall k :: 0 <= k < |s.calls| && k != i ==> s'.calls[k] == s.calls[k]
  }

  lemma DoneIsSilent(cfg: Config, s: State, i: nat, answer: HttpResult)
    requires cfg.Valid() && i < |s.calls| && s.calls[i].Done?
    ensures Apply(cfg, s, Act(i, answer)) == s
  {
    assert Next(cfg, s, Done, answer) == Move(Done, None, None);
    assert s.calls[i := Done] == s.calls && s.effects + multiset{} == s.effects && s.facts + {} == s.facts;
  }

  lemma StopsOnly(cfg: Config, s: State, i: nat)
    requires cfg.Valid() && i < |s.calls|
    ensures OnlyStops(s, Apply(cfg, s, Crash(i)), i)
  {
  }

  lemma {:induction false} StaysDone(cfg: Config, s: State, i: nat, after: seq<Label>)
    requires cfg.Valid() && i < |s.calls| && s.calls[i].Done?
    ensures i < |Exec(cfg, s, after).calls| && Exec(cfg, s, after).calls[i].Done?
    decreases |after|
  {
    if after != [] {
      StaysDone(cfg, s, i, after[..|after| - 1]);
      var s', l := Exec(cfg, s, after[..|after| - 1]), after[|after| - 1];
      if l.Act? && l.i == i { DoneIsSilent(cfg, s', i, l.answer); }
    }
  }

  /** Whatever happens after the crash, an action of the crashed call changes nothing. */
  lemma CrashedIsSilent(cfg: Config, s: State, i: nat, after: seq<Label>, answer: HttpResult)
    requires cfg.Valid() && i < |s.calls|
    ensures OnlyStops(s, Apply(cfg, s, Crash(i)), i)
    ensures var s' := Exec(cfg, Apply(cfg, s, Crash(i)), after); Apply(cfg, s', Act(i, answer)) == s'
  {
    StopsOnly(cfg, s, i);
    StaysDone(cfg, Apply(cfg, s, Crash(i)), i, after);
    DoneIsSilent(cfg, Exec(cfg, Apply(cfg, s, Crash(i)), after), i, answer);
  }

  // ---- Which steps stay running ----

  /** The call is between the won claim of step n and the write that ends it. */
  predicate WorksAt(pc: Pc, n: string)
  {
    (pc.Sending? || pc.Failing? || pc.Completing?) && pc.n == n
  }

  ghost predicate IsRunning(s: State, n: string)
  {
    n in s.rows && s.rows[n].status.Running?
  }

  /** At moment k of the run step n is running, and a call that works on it crashes. */
  ghost predicate CrashesAtWork(cfg: Config, ls: seq<Label>, k: nat, n: string)
    requires cfg.Valid()
  {
    && k < |ls| && ls[k].Crash?
    && var s := Reached(cfg, ls[..k]);
       ls[k].i < |s.calls| && WorksAt(s.calls[ls[k].i], n) && IsRunning(s, n)
  }

  /** Nobody works on the running step. */
  ghost predicate Orphaned(s: State, n: string)
  {
    IsRunning(s, n) && forall k :: 0 <= k < |s.calls| ==> !WorksAt(s.calls[k], n)
  }

  /** A running step has a trigger type that nobody completes from outside. */
  lemma RunningIsWork(cfg: Config, s: State, n: string)
    requires cfg.Valid() && RowsOk(cfg, s.rows) && IsRunning(s, n)
    ensures n in cfg.defs && !Activated(cfg.defs[n].trigger)
  {
    assert Along(cfg.defs[n].trigger, Pending, s.rows[n].status);
  }

  lemma OrphanAction(cfg: Config, s: State, pc: Pc, a: Action, n: string)
    requires cfg.Valid() && Fires(cfg, s, pc, a) && IsRunning(s, n) && !WorksAt(pc, n) && !pc.Creating?
    ensures !WorksAt(a.pc, n) && n in NextRows(s, a) && NextRows(s, a)[n] == s.rows[n]
  {
  }

  lemma StaysOrphaned(cfg: Config, s: State, l: Label, n: string)
    requires cfg.Valid() && Inv(cfg, s) && Orphaned(s, n)
    ensures Orphaned(Apply(cfg, s, l), n)
  {
    RunningIsWork(cfg, s, n);
    if l.Act? && l.i < |s.calls| {
      NextFires(cfg, s, s.calls[l.i], l.answer);
      assert PcOk(cfg, s.rows, s.calls[l.i]);
      OrphanAction(cfg, s, s.calls[l.i], Next(cfg, s, s.calls[l.i], l.answer), n);
    }
  }

  lemma CrashOrphans(cfg: Config, s: State, i: nat, n: string)
    requires cfg.Valid() && Inv(cfg, s) && i < |s.calls| && WorksAt(s.calls[i], n) && IsRunning(s, n)
    ensures Orphaned(Apply(cfg, s, Crash(i)), n)
  {
    RunningIsWork(cfg, s, n);
    assert Holds(cfg, s.calls[i]) == Work(n);
    forall k | 0 <= k < |s.calls| && k != i ensures !WorksAt(s.calls[k], n) {
      assert Holds(cfg, s.calls[k]) != Work(n);
    }
  }

  lemma {:induction false} CrashLeavesRunning(cfg: Config, ls: seq<Label>, k: nat, n: string)
    requires cfg.Valid() && CrashesAtWork(cfg, ls, k, n)
    ensures Orphaned(Reached(cfg, ls), n)
    decreases |ls|
  {
    var before := ls[..|ls| - 1];
    Always(cfg, before);
    if k < |ls| - 1 {
      assert before[..k] == ls[..k] && CrashesAtWork(cfg, before, k, n);
      CrashLeavesRunning(cfg, before, k, n);
      StaysOrphaned(cfg, Reached(cfg, before), ls[|ls| - 1], n);
    } else {
      CrashOrphans(cfg, Reached(cfg, before), ls[k].i, n);
    }
  }

  /** Some call works on the step. */
  ghost predicate IsWorkedOn(s: State, n: string)
  {
    exists i :: 0 <= i < |s.calls| && WorksAt(s.calls[i], n)
  }

  ghost predicate CrashedAtWork(cfg: Config, ls: seq<Label>, n: string)
    requires cfg.Valid()
  {
    exists k :: 0 <= k < |ls| && CrashesAtWork(cfg, ls, k, n)
  }

  lemma CrashedLonger(cfg: Config, ls: seq<Label>, l: Label, n: string)
    requires cfg.Valid() && CrashedAtWork(cfg, ls, n)
    ensures CrashedAtWork(cfg, ls + [l], n)
  {
    var k :| 0 <= k < |ls| && CrashesAtWork(cfg, ls, k, n);
    assert (ls + [l])[..k] == ls[..k] && CrashesAtWork(cfg, ls + [l], k, n);
  }

  /** While nobody crashes at it, a running step stays held. */
  lemma StaysHeld(cfg: Config, s: State, l: Label, n: string)
    requires cfg.Valid() && Inv(cfg, s) && (IsRunning(s, n) ==> IsHeld(cfg, s.calls, Work(n)))
    requires l.Crash? && l.i < |s.calls| && IsRunning(s, n) ==> !WorksAt(s.calls[l.i], n)
    ensures var s' := Apply(cfg, s, l); IsRunning(s', n) ==> IsHeld(cfg, s'.calls, Work(n))
  {
    var s' := Apply(cfg, s, l);
    if IsRunning(s', n) {
      if l.Act? && l.i < |s.calls| {
        NextFires(cfg, s, s.calls[l.i], l.answer);
        assert PcOk(cfg, s.rows, s.calls[l.i]);
        HeldAfter(cfg, s, l.i, Next(cfg, s, s.calls[l.i], l.answer), n);
      } else {
        var k :| 0 <= k < |s.calls| && Holds(cfg, s.calls[k]) == Work(n);
        assert PcOk(cfg, s.rows, s.calls[k]);
        WorksOn(cfg, s.rows, s.calls[k], n);
        assert s'.calls[k] == s.calls[k];
      }
    }
  }

  lemma {:induction false} HeldUnlessCrashed(cfg: Config, ls: seq<Label>, n: string)
    requires cfg.Valid() && IsRunning(Reached(cfg, ls), n) && !CrashedAtWork(cfg, ls, n)
    ensures IsHeld(cfg, Reached(cfg, ls).calls, Work(n))
    decreases |ls|
  {
    if ls != [] {
      var before, l := ls[..|ls| - 1], ls[|ls| - 1];
      assert before + [l] == ls;
      if CrashedAtWork(cfg, before, n) { CrashedLonger(cfg, before, l, n); }
      Always(cfg, before);
      assert !CrashesAtWork(cfg, ls, |ls| - 1, n);
      if IsRunning(Reached(cfg, before), n) { HeldUnlessCrashed(cfg, before, n); }
      StaysHeld(cfg, Reached(cfg, before), l, n);
    }
  }

  /** In every reachable state a step is running if and only if a call is working on a step of
      type auto or http, or one has crashed while it was: what a crash leaves running stays so. */
  lemma RunningIff(cfg: Config, ls: seq<Label>, n: string)
    requires cfg.Valid() && n in cfg.defs
    ensures IsRunning(Reached(cfg, ls), n) <==>
              || CrashedAtWork(cfg, ls, n)
              || (!Activated(cfg.defs[n].trigger) && IsWorkedOn(Reached(cfg, ls), n))
  {
    var s := Reached(cfg, ls);
    Always(cfg, ls);
    if k :| 0 <= k < |ls| && CrashesAtWork(cfg, ls, k, n) {
      CrashLeavesRunning(cfg, ls, k, n);
    } else if IsRunning(s, n) {
      HeldUnlessCrashed(cfg, ls, n);
      RunningIsWork(cfg, s, n);
      var i :| 0 <= i < |s.calls| && Holds(cfg, s.calls[i]) == Work(n);
      assert PcOk(cfg, s.rows, s.calls[i]);
      WorksOn(cfg, s.rows, s.calls[i], n);
      assert WorksAt(s.calls[i], n);
    } else if !Activated(cfg.defs[n].trigger) {
      forall i | 0 <= i < |s.calls| ensures !WorksAt(s.calls[i], n) { assert PcOk(cfg, s.rows, s.calls[i]); }
    }
  }

  /** When all calls have returned or crashed, exactly those steps are running at which a call
      has crashed between the won claim and the write. */
  lemma LeftRunningIff(cfg: Config, ls: seq<Label>, n: string)
    requires cfg.Valid() && n in cfg.defs && Quiescent(Reached(cfg, ls))
    ensures IsRunning(Reached(cfg, ls), n) <==> CrashedAtWork(cfg, ls, n)
  {
    RunningIff(cfg, ls, n);
  }

  // ---- Which effects are lost ----

  /** At moment k of the run a call that owes the effect of a won claim crashes. */
  ghost predicate CrashesOwing(cfg: Config, ls: seq<Label>, k: nat, e: Effect)
    requires cfg.Valid()
  {
    && k < |ls| && ls[k].Crash?
    && var s := Reached(cfg, ls[..k]); ls[k].i < |s.calls| && Debt(cfg, s.calls[ls[k].i]) == Some(e)
  }

  ghost predicate CrashedOwing(cfg: Config, ls: seq<Label>, e: Effect)
    requires cfg.Valid()
  {
    exists k :: 0 <= k < |ls| && CrashesOwing(cfg, ls, k, e)
  }

  /** The effect of the won claim has not happened, and nobody owes it. */
  ghost predicate Lost(cfg: Config, s: State, e: Effect)
  {
    Winners(e) && Claimed(s, e) && s.effects[e] == 0 && !Owes(cfg, s.calls, e)
  }

  lemma StaysClaimed(cfg: Config, s: State, i: nat, a: Action, e: Effect)
    requires cfg.Valid() && i < |s.calls| && PcOk(cfg, s.rows, s.calls[i]) && Fires(cfg, s, s.calls[i], a)
    requires Winners(e) && Claimed(s, e)
    ensures Claimed(Perform(s, i, a), e)
  {
    if a.Insert? { InsertIsNew(cfg, s.rows, s.calls[i].k); }
  }

  /** Nobody gets to owe what is claimed already. */
  lemma NoNewDebt(cfg: Config, s: State, pc: Pc, a: Action, e: Effect)
    requires cfg.Valid() && Fires(cfg, s, pc, a) && Winners(e) && Claimed(s, e)
    ensures Debt(cfg, a.pc) != Some(e)
  {
    if a.Move? { MovePays(cfg, s, pc, a); }
  }

  lemma NotPaid(cfg: Config, s: State, pc: Pc, a: Action, e: Effect)
    requires cfg.Valid() && Fires(cfg, s, pc, a) && Winners(e) && Debt(cfg, pc) != Some(e)
    ensures Emitted(a)[e] == 0
  {
    EmittedOnce(a, e);
    if a.Move? { MovePays(cfg, s, pc, a); }
  }

  lemma StillNotOwed(cfg: Config, calls: seq<Pc>, i: nat, pc: Pc, e: Effect)
    requires !Owes(cfg, calls, e) && i < |calls| && Debt(cfg, pc) != Some(e)
    ensures !Owes(cfg, calls[i := pc], e)
  {
    var calls' := calls[i := pc];
    forall k | 0 <= k < |calls'| ensures Debt(cfg, calls'[k]) != Some(e) {
      assert Debt(cfg, calls[k]) != Some(e);
    }
  }

  lemma LostAction(cfg: Config, s: State, i: nat, a: Action, e: Effect)
    requires cfg.Valid() && Inv(cfg, s) && Lost(cfg, s, e) && i < |s.calls| && Fires(cfg, s, s.calls[i], a)
    ensures Lost(cfg, Perform(s, i, a), e)
  {
    assert PcOk(cfg, s.rows, s.calls[i]) && Debt(cfg, s.calls[i]) != Some(e);
    StaysClaimed(cfg, s, i, a, e);
    NoNewDebt(cfg, s, s.calls[i], a, e);
    NotPaid(cfg, s, s.calls[i], a, e);
    StillNotOwed(cfg, s.calls, i, a.pc, e);
  }

  lemma LostOutside(cfg: Config, s: State, s': State, e: Effect)
    requires Lost(cfg, s, e) && AddsNoDebt(cfg, s, s')
    ensures Lost(cfg, s', e)
  {
    forall k | 0 <= k < |s'.calls| ensures Debt(cfg, s'.calls[k]) != Some(e) {
      if k < |s.calls| { assert Debt(cfg, s.calls[k]) != Some(e); }
    }
  }

  lemma StaysLost(cfg: Config, s: State, l: Label, e: Effect)
    requires cfg.Valid() && Inv(cfg, s) && Lost(cfg, s, e)
    ensures Lost(cfg, Apply(cfg, s, l), e)
  {
    if l.Act? && l.i < |s.calls| {
      NextFires(cfg, s, s.calls[l.i], l.answer);
      LostAction(cfg, s, l.i, Next(cfg, s, s.calls[l.i], l.answer), e);
    } else {
      OutsideAddsNoDebt(cfg, s, l);
      LostOutside(cfg, s, Apply(cfg, s, l), e);
    }
  }

  lemma CrashLoses(cfg: Config, s: State, i: nat, e: Effect)
    requires cfg.Valid() && Inv(cfg, s) && Once(cfg, s) && i < |s.calls| && Debt(cfg, s.calls[i]) == Some(e)
    ensures Lost(cfg, Apply(cfg, s, Crash(i)), e)
  {
    DebtFacts(cfg, s, i);
  }

  lemma {:induction false} CrashMakesLost(cfg: Config, ls: seq<Label>, k: nat, e: Effect)
    requires cfg.Valid() && CrashesOwing(cfg, ls, k, e)
    ensures Lost(cfg, Reached(cfg, ls), e)
    decreases |ls|
  {
    var before := ls[..|ls| - 1];
    Always(cfg, before);
    if k < |ls| - 1 {
      assert before[..k] == ls[..k] && CrashesOwing(cfg, before, k, e);
      CrashMakesLost(cfg, before, k, e);
      StaysLost(cfg, Reached(cfg, before), ls[|ls| - 1], e);
    } else {
      AlwaysOnce(cfg, before);
      CrashLoses(cfg, Reached(cfg, before), ls[k].i, e);
    }
  }

  ghost predicate PaidOrOwedIf(cfg: Config, s: State, e: Effect)
  {
    Winners(e) && Fits(cfg, e) && Claimed(s, e) ==> s.effects[e] >= 1 || Owes(cfg, s.calls, e)
  }

  lemma PaidOrOwedAfter(cfg: Config, s: State, i: nat, a: Action, e: Effect)
    requires cfg.Valid() && i < |s.calls| && PcOk(cfg, s.rows, s.calls[i]) && Fires(cfg, s, s.calls[i], a)
    requires PaidOrOwedIf(cfg, s, e)
    ensures PaidOrOwedIf(cfg, Perform(s, i, a), e)
  {
    var s' := Perform(s, i, a);
    if Winners(e) && Fits(cfg, e) && Claimed(s', e) {
      if Claimed(s, e) {
        DebtKept(cfg, s, i, a, e);
      } else {
        NewDebt(cfg, s, i, a, e);
        assert s'.calls[i] == a.pc;
      }
    }
  }

  /** While nobody that owes it crashes, a claimed effect is paid or owed. */
  lemma StaysPaidOrOwed(cfg: Config, s: State, l: Label, e: Effect)
    requires cfg.Valid() && Inv(cfg, s) && PaidOrOwedIf(cfg, s, e)
    requires l.Crash? && l.i < |s.calls| ==> Debt(cfg, s.calls[l.i]) != Some(e)
    ensures PaidOrOwedIf(cfg, Apply(cfg, s, l), e)
  {
    var s' := Apply(cfg, s, l);
    if l.Act? && l.i < |s.calls| {
      NextFires(cfg, s, s.calls[l.i], l.answer);
      assert PcOk(cfg, s.rows, s.calls[l.i]);
      PaidOrOwedAfter(cfg, s, l.i, Next(cfg, s, s.calls[l.i], l.answer), e);
    } else if Winners(e) && Fits(cfg, e) && Claimed(s, e) && s.effects[e] == 0 {
      var k :| 0 <= k < |s.calls| && Debt(cfg, s.calls[k]) == Some(e);
      assert s'.calls[k] == s.calls[k];
    }
  }

  lemma {:induction false} PaidUnlessCrashed(cfg: Config, ls: seq<Label>, e: Effect)
    requires cfg.Valid() && !CrashedOwing(cfg, ls, e)
    ensures PaidOrOwedIf(cfg, Reached(cfg, ls), e)
    decreases |ls|
  {
    if ls != [] {
      var before, l := ls[..|ls| - 1], ls[|ls| - 1];
      forall k | 0 <= k < |before| ensures !CrashesOwing(cfg, before, k, e) {
        assert before[..k] == ls[..k] && !CrashesOwing(cfg, ls, k, e);
      }
      PaidUnlessCrashed(cfg, before, e);
      Always(cfg, before);
      assert !CrashesOwing(cfg, ls, |ls| - 1, e);
      StaysPaidOrOwed(cfg, Reached(cfg, before), l, e);
    }
  }

  /** When all calls have returned or crashed, the request, notification, registration or
      terminal event of a won claim is missing if and only if the call that owed it has
      crashed; otherwise it has happened exactly once. */
  lemma LostIff(cfg: Config, ls: seq<Label>, e: Effect)
    requires cfg.Valid() && Quiescent(Reached(cfg, ls)) && Winners(e) && Fits(cfg, e) && Claimed(Reached(cfg, ls), e)
    ensures Reached(cfg, ls).effects[e] == if CrashedOwing(cfg, ls, e) then 0 else 1
  {
    AlwaysOnce(cfg, ls);
    if k :| 0 <= k < |ls| && CrashesOwing(cfg, ls, k, e) {
      CrashMakesLost(cfg, ls, k, e);
    } else {
      PaidUnlessCrashed(cfg, ls, e);
      NothingOwed(cfg, Reached(cfg, ls).calls, e);
    }
  }
}
