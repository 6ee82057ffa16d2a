/** Without crashes and SQL errors no wake-up is lost between the nodes, and when no call is in
    flight the instance stands where its steps say. */
module Progress {
  import opened Types
  import opened Protocol
  import opened Safety
  import opened Actions
  import opened Lifecycle
  import opened Counting

  /** The call holds a snapshot in which step n is ready and has not been reached. */
  ghost predicate Covers(cfg: Config, pc: Pc, n: string)
  {
    match pc
    case Looping(snap, j) => ReadyIn(cfg, snap, n) && exists k :: j <= k < |cfg.order| && cfg.order[k] == n
    case Announcing(snap, j) => ReadyIn(cfg, snap, n) && exists k :: j < k < |cfg.order| && cfg.order[k] == n
    case Watching(snap, j) => ReadyIn(cfg, snap, n) && exists k :: j < k < |cfg.order| && cfg.order[k] == n
    case _ => false
  }

  ghost predicate Wakes(cfg: Config, calls: seq<Pc>, n: string)
  {
    exists i :: 0 <= i < |calls| && (WillList(calls[i]) || Covers(cfg, calls[i], n))
  }

  /** Every ready step is about to be noticed by some call. */
  ghost predicate NoLostWakeUp(cfg: Config, s: State)
    requires cfg.Valid()
  {
    !AnyFailed(s.rows) ==> forall n :: ReadyIn(cfg, s.rows, n) ==> Wakes(cfg, s.calls, n)
  }

  /** Some call will look at the rows again or already claims the instance. */
  ghost predicate WillEnd(calls: seq<Pc>)
  {
    exists i :: 0 <= i < |calls| && (WillList(calls[i]) || calls[i].Terminating?)
  }

  ghost predicate Decided(cfg: Config, rows: Table)
  {
    AnyFailed(rows) || (Full(cfg, rows) && AllCompleted(rows))
  }

  ghost predicate NoLostEnd(cfg: Config, s: State)
  {
    s.inst.InstanceRunning? && Decided(cfg, s.rows) ==> WillEnd(s.calls)
  }

  ghost predicate IsHeld(cfg: Config, calls: seq<Pc>, t: Ticket)
  {
    exists i :: 0 <= i < |calls| && Holds(cfg, calls[i]) == t
  }

  /** A running step is being worked on. */
  ghost predicate NoOrphan(cfg: Config, s: State)
  {
    forall n :: n in s.rows && s.rows[n].status.Running? ==> IsHeld(cfg, s.calls, Work(n))
  }

  ghost predicate BeingCreated(calls: seq<Pc>)
  {
    exists i :: 0 <= i < |calls| && calls[i].Creating?
  }

  ghost predicate Live(cfg: Config, s: State)
    requires cfg.Valid()
  {
    && NoLostWakeUp(cfg, s)
    && NoLostEnd(cfg, s)
    && NoOrphan(cfg, s)
    && (Full(cfg, s.rows) || BeingCreated(s.calls))
  }

  // ---- Wake-ups ----

  /** A call that covers n and moves on still covers it, or has claimed it. */
  lemma StillCovers(cfg: Config, s: State, pc: Pc, a: Action, n: string)
    requires cfg.Valid() && Fires(cfg, s, pc, a) && Covers(cfg, pc, n)
    requires n in s.rows && s.rows[n].status.Pending? && NextRows(s, a)[n].status.Pending?
    ensures WillList(a.pc) || Covers(cfg, a.pc, n)
  {
    if pc.Looping? && cfg.order[pc.j] != n {
      var k :| pc.j <= k < |cfg.order| && cfg.order[k] == n;
      assert pc.j + 1 <= k;
    }
  }

  /** A fresh snapshot covers every step that is ready. */
  lemma FreshSnapshot(cfg: Config, rows: Table, n: string)
    requires cfg.Valid() && !AnyFailed(rows) && ReadyIn(cfg, rows, n)
    ensures Covers(cfg, AfterListing(rows), n)
  {
    assert n in cfg.order;
    var k :| 0 <= k < |cfg.order| && cfg.order[k] == n;
  }

  /** Who will list either lists now, or still will. */
  lemma StillLists(cfg: Config, s: State, pc: Pc, a: Action)
    requires cfg.Valid() && Fires(cfg, s, pc, a) && WillList(pc)
    ensures WillList(a.pc) || (pc.Listing? && a.pc == AfterListing(s.rows) && a.Move?)
  {
  }

  /** A step that becomes ready was made so by a call that will list. */
  lemma NewlyReady(cfg: Config, s: State, pc: Pc, a: Action, n: string)
    requires cfg.Valid() && PcOk(cfg, s.rows, pc) && Fires(cfg, s, pc, a)
    requires ReadyIn(cfg, NextRows(s, a), n)
    ensures ReadyIn(cfg, s.rows, n) || WillList(a.pc)
  {
    if !WillList(a.pc) {
      assert a.Claim? || NextRows(s, a) == s.rows;
    }
  }

  lemma WakesAfter(cfg: Config, s: State, i: nat, a: Action, n: string)
    requires cfg.Valid() && i < |s.calls| && PcOk(cfg, s.rows, s.calls[i]) && Fires(cfg, s, s.calls[i], a)
    requires !AnyFailed(s.rows) && ReadyIn(cfg, NextRows(s, a), n)
    requires ReadyIn(cfg, s.rows, n) ==> Wakes(cfg, s.calls, n)
    ensures Wakes(cfg, s.calls[i := a.pc], n)
  {
    var calls' := s.calls[i := a.pc];
    NewlyReady(cfg, s, s.calls[i], a, n);
    if WillList(a.pc) {
      assert WillList(calls'[i]);
    } else {
      var k :| 0 <= k < |s.calls| && (WillList(s.calls[k]) || Covers(cfg, s.calls[k], n));
      if k != i {
        assert calls'[k] == s.calls[k];
      } else {
        if WillList(s.calls[i]) {
          StillLists(cfg, s, s.calls[i], a);
          FreshSnapshot(cfg, s.rows, n);
        } else {
          StillCovers(cfg, s, s.calls[i], a, n);
        }
        assert Covers(cfg, calls'[i], n);
      }
    }
  }

  lemma FailedStays(cfg: Config, s: State, pc: Pc, a: Action)
    requires cfg.Valid() && PcOk(cfg, s.rows, pc) && Fires(cfg, s, pc, a) && AnyFailed(s.rows)
    ensures AnyFailed(NextRows(s, a))
  {
    var m :| m in s.rows && s.rows[m].status.Failed?;
    assert m in NextRows(s, a) && NextRows(s, a)[m].status.Failed?;
  }

  // ---- The end of the instance ----

  lemma NewlyDecided(cfg: Config, s: State, pc: Pc, a: Action)
    requires cfg.Valid() && PcOk(cfg, s.rows, pc) && Fires(cfg, s, pc, a)
    requires Decided(cfg, NextRows(s, a))
    ensures Decided(cfg, s.rows) || WillList(a.pc)
  {
    if !WillList(a.pc) && a.Claim? {
      assert NextRows(s, a)[a.n].status == a.status && a.n in NextRows(s, a);
    }
  }

  lemma EndsAfter(cfg: Config, s: State, i: nat, a: Action)
    requires cfg.Valid() && i < |s.calls| && PcOk(cfg, s.rows, s.calls[i]) && Fires(cfg, s, s.calls[i], a)
    requires s.inst.InstanceRunning? && !a.End? && Decided(cfg, NextRows(s, a))
    requires Decided(cfg, s.rows) ==> WillEnd(s.calls)
    ensures WillEnd(s.calls[i := a.pc])
  {
    var calls' := s.calls[i := a.pc];
    NewlyDecided(cfg, s, s.calls[i], a);
    if WillList(a.pc) {
      assert WillList(calls'[i]);
    } else {
      var k :| 0 <= k < |s.calls| && (WillList(s.calls[k]) || s.calls[k].Terminating?);
      if k != i {
        assert calls'[k] == s.calls[k];
      } else {
        assert WillList(s.calls[i]);
        StillLists(cfg, s, s.calls[i], a);
        assert calls'[i].Terminating?;
      }
    }
  }

  // ---- Running steps ----

  /** Who holds a running step works on it. */
  lemma WorksOn(cfg: Config, rows: Table, pc: Pc, n: string)
    requires cfg.Valid() && RowsOk(cfg, rows) && PcOk(cfg, rows, pc) && Holds(cfg, pc) == Work(n)
    requires n in rows && rows[n].status.Running?
    ensures (pc.Sending? && RunsHttp(cfg, rows, n)) || pc.Failing? || pc.Completing?
  {
    assert Along(cfg.defs[n].trigger, Pending, rows[n].status);
  }

  lemma StillHeld(cfg: Config, s: State, pc: Pc, a: Action, n: string)
    requires cfg.Valid() && Fires(cfg, s, pc, a) && Holds(cfg, pc) == Work(n)
    requires (pc.Sending? && RunsHttp(cfg, s.rows, n)) || pc.Failing? || pc.Completing?
    requires n in s.rows && s.rows[n].status.Running? && NextRows(s, a)[n].status.Running?
    ensures Holds(cfg, a.pc) == Work(n)
  {
  }

  lemma NewlyRunning(cfg: Config, s: State, pc: Pc, a: Action, n: string)
    requires cfg.Valid() && Fires(cfg, s, pc, a)
    requires !(n in s.rows && s.rows[n].status.Running?)
    requires n in NextRows(s, a) && NextRows(s, a)[n].status.Running?
    ensures Holds(cfg, a.pc) == Work(n)
  {
  }

  lemma HeldAfter(cfg: Config, s: State, i: nat, a: Action, n: string)
    requires cfg.Valid() && RowsOk(cfg, s.rows) && i < |s.calls| && PcOk(cfg, s.rows, s.calls[i]) && Fires(cfg, s, s.calls[i], a)
    requires n in NextRows(s, a) && NextRows(s, a)[n].status.Running?
    requires n in s.rows && s.rows[n].status.Running? ==> IsHeld(cfg, s.calls, Work(n))
    ensures IsHeld(cfg, s.calls[i := a.pc], Work(n))
  {
    var calls' := s.calls[i := a.pc];
    if n in s.rows && s.rows[n].status.Running? {
      var k :| 0 <= k < |s.calls| && Holds(cfg, s.calls[k]) == Work(n);
      if k == i {
        WorksOn(cfg, s.rows, s.calls[i], n);
        StillHeld(cfg, s, s.calls[i], a, n);
      }
      assert Holds(cfg, calls'[k]) == Work(n);
    } else {
      NewlyRunning(cfg, s, s.calls[i], a, n);
      assert Holds(cfg, calls'[i]) == Work(n);
    }
  }

  lemma StillCreating(cfg: Config, s: State, pc: Pc, a: Action)
    requires cfg.Valid() && PcOk(cfg, s.rows, pc) && Fires(cfg, s, pc, a)
    requires pc.Creating? && !Full(cfg, s.rows)
    ensures a.pc.Creating?
  {
    assert cfg.order[..|cfg.order|] == cfg.order;
  }

  lemma CreatedAfter(cfg: Config, s: State, i: nat, a: Action)
    requires cfg.Valid() && i < |s.calls| && PcOk(cfg, s.rows, s.calls[i]) && Fires(cfg, s, s.calls[i], a)
    requires Full(cfg, s.rows) || BeingCreated(s.calls)
    ensures Full(cfg, NextRows(s, a)) || BeingCreated(s.calls[i := a.pc])
  {
    var calls' := s.calls[i := a.pc];
    if Full(cfg, s.rows) {
      if a.Insert? { InsertIsNew(cfg, s.rows, s.calls[i].k); }
      assert NextRows(s, a).Keys == s.rows.Keys;
    } else {
      var k :| 0 <= k < |s.calls| && s.calls[k].Creating?;
      if k != i {
        assert calls'[k].Creating?;
      } else {
        StillCreating(cfg, s, s.calls[i], a);
        assert calls'[i].Creating?;
      }
    }
  }

  // ---- Every action, every run ----

  /** Every ready step is about to be noticed, and a decided instance is about to end. */
  ghost predicate Woken(cfg: Config, s: State)
    requires cfg.Valid()
  {
    NoLostWakeUp(cfg, s) && NoLostEnd(cfg, s)
  }

  lemma WokenAction(cfg: Config, s: State, i: nat, a: Action)
    requires cfg.Valid() && Inv(cfg, s) && Woken(cfg, s) && i < |s.calls| && Fires(cfg, s, s.calls[i], a)
    ensures Woken(cfg, Perform(s, i, a))
  {
    assert PcOk(cfg, s.rows, s.calls[i]);
    var s' := Perform(s, i, a);
    if !AnyFailed(s'.rows) {
      if AnyFailed(s.rows) { FailedStays(cfg, s, s.calls[i], a); }
      forall n | ReadyIn(cfg, s'.rows, n) ensures Wakes(cfg, s'.calls, n) {
        WakesAfter(cfg, s, i, a, n);
      }
    }
    if s'.inst.InstanceRunning? && Decided(cfg, s'.rows) { EndsAfter(cfg, s, i, a); }
  }

  lemma LiveAction(cfg: Config, s: State, i: nat, a: Action)
    requires cfg.Valid() && Inv(cfg, s) && Live(cfg, s) && i < |s.calls| && Fires(cfg, s, s.calls[i], a)
    ensures Live(cfg, Perform(s, i, a))
  {
    assert PcOk(cfg, s.rows, s.calls[i]);
    var s' := Perform(s, i, a);
    WokenAction(cfg, s, i, a);
    forall n | n in s'.rows && s'.rows[n].status.Running? ensures IsHeld(cfg, s'.calls, Work(n)) {
      HeldAfter(cfg, s, i, a, n);
    }
    CreatedAfter(cfg, s, i, a);
  }

  lemma LiveTrigger(cfg: Config, s: State, n: string, out: Json)
    requires cfg.Valid() && Live(cfg, s)
    ensures Live(cfg, s.(calls := s.calls + [Checking(n, out)]))
  {
    var calls' := s.calls + [Checking(n, out)];
    assert forall k :: 0 <= k < |s.calls| ==> calls'[k] == s.calls[k];
  }

  lemma KeepsLive(cfg: Config, s: State, l: Label)
    requires cfg.Valid() && Inv(cfg, s) && Live(cfg, s) && !l.Crash?
    ensures Live(cfg, Apply(cfg, s, l))
  {
    match l
    case Act(i, answer) =>
      if i < |s.calls| {
        NextFires(cfg, s, s.calls[i], answer);
        LiveAction(cfg, s, i, Next(cfg, s, s.calls[i], answer));
      }
    case Trigger(n, out) => LiveTrigger(cfg, s, n, out);
    case Tick(_) =>
  }

  /** In every state that a run without crashes reaches: every ready step is about to be
      noticed, a decided instance is about to be terminated, a running step is being worked on. */
  lemma {:induction false} AlwaysLive(cfg: Config, ls: seq<Label>)
    requires cfg.Valid() && CrashFree(ls)
    ensures Live(cfg, Reached(cfg, ls))
  {
    if ls == [] {
      assert Init().calls[0].Creating?;
    } else {
      Always(cfg, ls[..|ls| - 1]);
      AlwaysLive(cfg, ls[..|ls| - 1]);
      KeepsLive(cfg, Reached(cfg, ls[..|ls| - 1]), ls[|ls| - 1]);
    }
  }

  /** When no call is in flight: all rows exist, none is running, no ready step is left
      pending unless some step failed, and the instance is failed if and only if some step
      failed, completed if and only if all completed, and running otherwise. */
  lemma AtRest(cfg: Config, ls: seq<Label>)
    requires cfg.Valid() && CrashFree(ls) && Quiescent(Reached(cfg, ls))
    ensures var s := Reached(cfg, ls);
            && s.rows.Keys == cfg.defs.Keys
            && (forall n :: n in s.rows ==> !s.rows[n].status.Running?)
            && (AnyFailed(s.rows) || forall n :: !ReadyIn(cfg, s.rows, n))
            && (s.inst.InstanceFailed? <==> AnyFailed(s.rows))
            && (s.inst.InstanceCompleted? <==> AllCompleted(s.rows))
  {
    Always(cfg, ls);
    AlwaysLive(cfg, ls);
    var s := Reached(cfg, ls);
    assert Live(cfg, s) && InstOk(cfg, s.rows, s.inst);
    forall n | n in s.rows ensures !s.rows[n].status.Running? {
      assert !IsHeld(cfg, s.calls, Work(n));
    }
    assert forall n :: !Wakes(cfg, s.calls, n);
    assert !WillEnd(s.calls) && !BeingCreated(s.calls);
  }

  // ---- After crashes ----

  lemma WokenTrigger(cfg: Config, s: State, n: string, out: Json)
    requires cfg.Valid() && Woken(cfg, s)
    ensures Woken(cfg, s.(calls := s.calls + [Checking(n, out)]))
  {
    var calls' := s.calls + [Checking(n, out)];
    assert forall k :: 0 <= k < |s.calls| ==> calls'[k] == s.calls[k];
  }

  lemma KeepsWoken(cfg: Config, s: State, l: Label)
    requires cfg.Valid() && Inv(cfg, s) && Woken(cfg, s) && !l.Crash?
    ensures Woken(cfg, Apply(cfg, s, l))
  {
    match l
    case Act(i, answer) =>
      if i < |s.calls| {
        NextFires(cfg, s, s.calls[i], answer);
        WokenAction(cfg, s, i, Next(cfg, s, s.calls[i], answer));
      }
    case Trigger(n, out) => WokenTrigger(cfg, s, n, out);
    case Tick(_) =>
  }

  lemma {:induction false} StaysWoken(cfg: Config, s: State, ls: seq<Label>)
    requires cfg.Valid() && Inv(cfg, s) && Woken(cfg, s) && CrashFree(ls)
    ensures Woken(cfg, Exec(cfg, s, ls))
  {
    if ls != [] {
      StaysWoken(cfg, s, ls[..|ls| - 1]);
      InvExec(cfg, s, ls[..|ls| - 1]);
      KeepsWoken(cfg, Exec(cfg, s, ls[..|ls| - 1]), ls[|ls| - 1]);
    }
  }

  lemma {:induction false} StaysFull(cfg: Config, s: State, ls: seq<Label>)
    requires cfg.Valid() && Inv(cfg, s) && Full(cfg, s.rows)
    ensures Full(cfg, Exec(cfg, s, ls).rows)
  {
    InvExec(cfg, s, ls);
    forall n | n in cfg.defs ensures n in Exec(cfg, s, ls).rows { StaysOnPath(cfg, s, ls, n); }
  }

  /** Whatever has crashed before: once any later call has listed the steps and all calls have
      returned without a further crash, no ready step is pending unless one failed, and the
      instance is failed if and only if a step failed, completed if and only if all are. */
  lemma Heals(cfg: Config, before: seq<Label>, more: seq<Label>, i: nat)
    requires cfg.Valid() && CrashFree(more)
    requires var calls := Reached(cfg, before).calls; i < |calls| && WillList(calls[i]) && !calls[i].Creating?
    requires Quiescent(Reached(cfg, before + more))
    ensures var s := Reached(cfg, before + more);
            && (AnyFailed(s.rows) || forall n :: !ReadyIn(cfg, s.rows, n))
            && (s.inst.InstanceFailed? <==> AnyFailed(s.rows))
            && (s.inst.InstanceCompleted? <==> AllCompleted(s.rows))
  {
    var s0, s := Reached(cfg, before), Reached(cfg, before + more);
    Always(cfg, before);
    Always(cfg, before + more);
    ExecAppend(cfg, Init(), before, more);
    assert PcOk(cfg, s0.rows, s0.calls[i]) && WillEnd(s0.calls) && forall n :: Wakes(cfg, s0.calls, n);
    StaysWoken(cfg, s0, more);
    StaysFull(cfg, s0, more);
    assert !WillEnd(s.calls) && forall n :: !Wakes(cfg, s.calls, n);
    assert InstOk(cfg, s.rows, s.inst);
  }
}
