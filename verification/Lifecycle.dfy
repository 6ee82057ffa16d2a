/** The life of rows and of the instance over whole runs: the step automaton, dependency
    safety, agreement on the terminal status, and consistency of the other columns. */
module Lifecycle {
  import opened Types
  import opened Protocol
  import opened Safety
  import opened Actions

  // ---- Runs compose ----

  lemma {:induction false} ExecAppend(cfg: Config, s: State, a: seq<Label>, b: seq<Label>)
    requires cfg.Valid()
    ensures Exec(cfg, s, a + b) == Exec(cfg, Exec(cfg, s, a), b)
  {
    if b == [] {
      assert a + b == a;
    } else {
      ExecAppend(cfg, s, a, b[..|b| - 1]);
      assert (a + b)[..|a + b| - 1] == a + b[..|b| - 1];
    }
  }

  lemma {:induction false} InvExec(cfg: Config, s: State, ls: seq<Label>)
    requires cfg.Valid() && Inv(cfg, s)
    ensures Inv(cfg, Exec(cfg, s, ls))
  {
    if ls != [] {
      InvExec(cfg, s, ls[..|ls| - 1]);
      KeepsApply(cfg, Exec(cfg, s, ls[..|ls| - 1]), ls[|ls| - 1]);
    }
  }

  // ---- The step automaton ----

  /** A row moves along one edge, or is completed once more. */
  lemma RowsMove(cfg: Config, s: State, pc: Pc, a: Action, n: string)
    requires cfg.Valid() && RowsOk(cfg, s.rows) && PcOk(cfg, s.rows, pc) && Fires(cfg, s, pc, a)
    requires n in s.rows
    ensures var rows' := NextRows(s, a);
            && n in rows'
            && (rows'[n].status == s.rows[n].status
                || Edge(cfg.defs[n].trigger, s.rows[n].status, rows'[n].status))
  {
    if a.Insert? { InsertIsNew(cfg, s.rows, pc.k); }
  }

  /** One action leaves a step where it is or moves it along one edge of its trigger type,
      although UpdateStepStatus has no guard and triggers may overlap. */
  lemma OneEdge(cfg: Config, s: State, l: Label, n: string)
    requires cfg.Valid() && Inv(cfg, s) && n in s.rows
    ensures var s' := Apply(cfg, s, l);
            && n in s'.rows
            && (s'.rows[n].status == s.rows[n].status
                || Edge(cfg.defs[n].trigger, s.rows[n].status, s'.rows[n].status))
  {
    if l.Act? && l.i < |s.calls| {
      NextFires(cfg, s, s.calls[l.i], l.answer);
      RowsMove(cfg, s, s.calls[l.i], Next(cfg, s, s.calls[l.i], l.answer), n);
    }
  }

  lemma {:induction false} StaysOnPath(cfg: Config, s: State, ls: seq<Label>, n: string)
    requires cfg.Valid() && Inv(cfg, s) && n in s.rows
    ensures n in Exec(cfg, s, ls).rows && n in cfg.defs
    ensures Along(cfg.defs[n].trigger, s.rows[n].status, Exec(cfg, s, ls).rows[n].status)
  {
    if ls != [] {
      InvExec(cfg, s, ls[..|ls| - 1]);
      StaysOnPath(cfg, s, ls[..|ls| - 1], n);
      OneEdge(cfg, Exec(cfg, s, ls[..|ls| - 1]), ls[|ls| - 1], n);
    }
  }

  lemma FinishedStays(t: TriggerType, a: Status, b: Status)
    requires Along(t, a, b) && (a.Completed? || a.Failed?)
    ensures b == a
  {
  }

  /** Between any two moments of a run each step moves only forward along its path;
      `completed` and `failed` are never left. */
  lemma MonotoneAutomaton(cfg: Config, ls: seq<Label>, more: seq<Label>, n: string)
    requires cfg.Valid() && n in Reached(cfg, ls).rows
    ensures n in Reached(cfg, ls + more).rows
    ensures var a, b := Reached(cfg, ls).rows[n].status, Reached(cfg, ls + more).rows[n].status;
            && n in cfg.defs && Along(cfg.defs[n].trigger, a, b)
            && (a.Completed? || a.Failed? ==> b == a)
  {
    Always(cfg, ls);
    ExecAppend(cfg, Init(), ls, more);
    StaysOnPath(cfg, Reached(cfg, ls), more, n);
    var a, b := Reached(cfg, ls).rows[n].status, Reached(cfg, ls + more).rows[n].status;
    if a.Completed? || a.Failed? { FinishedStays(cfg.defs[n].trigger, a, b); }
  }

  // ---- Dependencies ----

  /** In every reachable state a step that is not pending has all its dependencies completed. */
  lemma DependencySafety(cfg: Config, ls: seq<Label>, n: string, d: string)
    requires cfg.Valid()
    requires var rows := Reached(cfg, ls).rows; n in rows && !rows[n].status.Pending?
    requires n in cfg.defs && d in cfg.defs[n].deps
    ensures var rows := Reached(cfg, ls).rows; d in rows && rows[d].status.Completed?
  {
    Always(cfg, ls);
    assert DepsDone(cfg.defs[n].deps, Reached(cfg, ls).rows);
  }

  // ---- The instance ----

  lemma TerminalAgreement(cfg: Config, ls: seq<Label>)
    requires cfg.Valid()
    ensures var s := Reached(cfg, ls);
            && (s.inst.InstanceCompleted? ==> s.rows.Keys == cfg.defs.Keys && AllCompleted(s.rows))
            && (s.inst.InstanceFailed? ==> AnyFailed(s.rows))
  {
    Always(cfg, ls);
  }

  /** Calls that race for the terminal status, on any nodes, always carry the same one. */
  lemma RacingClaimsAgree(cfg: Config, ls: seq<Label>, i: nat, j: nat)
    requires cfg.Valid()
    requires var calls := Reached(cfg, ls).calls;
             i < |calls| && j < |calls| && calls[i].Terminating? && calls[j].Terminating?
    ensures var calls := Reached(cfg, ls).calls; calls[i].status == calls[j].status
  {
    Always(cfg, ls);
    var s := Reached(cfg, ls);
    assert PcOk(cfg, s.rows, s.calls[i]) && PcOk(cfg, s.rows, s.calls[j]);
  }

  lemma TerminalKept(cfg: Config, s: State, l: Label)
    requires cfg.Valid() && !s.inst.InstanceRunning?
    ensures Apply(cfg, s, l).inst == s.inst
  {
  }

  lemma {:induction false} TerminalStays(cfg: Config, s: State, ls: seq<Label>)
    requires cfg.Valid() && !s.inst.InstanceRunning?
    ensures Exec(cfg, s, ls).inst == s.inst
  {
    if ls != [] {
      TerminalStays(cfg, s, ls[..|ls| - 1]);
      TerminalKept(cfg, Exec(cfg, s, ls[..|ls| - 1]), ls[|ls| - 1]);
    }
  }

  // ---- The other columns ----

  predicate OrderedTimes(r: Row, now: nat)
  {
    r.startedAt.Some? && r.completedAt.Some? && r.startedAt.value <= r.completedAt.value <= now
  }

  /** Which columns are set, and in which order the timestamps were taken. */
  predicate ConsistentRow(r: Row, now: nat)
  {
    match r.status
    case Pending => r == Row(Pending, Absent, Absent, "", None, None)
    case WaitingManual => r.output == Absent && r.error == "" && r.startedAt.None? && r.completedAt.None?
    case WaitingQueueTi => r.output == Absent && r.error == "" && r.startedAt.None? && r.completedAt.None?
    case Running =>
      r.output == Absent && r.error == "" && r.startedAt.Some? && r.startedAt.value <= now && r.completedAt.None?
    case Completed => r.error == "" && OrderedTimes(r, now)
    case Failed => r.error != "" && r.output == Absent && OrderedTimes(r, now)
  }

  ghost predicate ConsistentRows(s: State)
  {
    forall n :: n in s.rows ==> ConsistentRow(s.rows[n], s.clock)
  }

  lemma ClaimConsistent(t: TriggerType, input: Json, now: nat)
    ensures ConsistentRow(ClaimRow(FreshRow(), ClaimStatus(t), input, now), now)
  {
  }

  lemma UpdateConsistent(r: Row, out: Json, error: ErrorText, now: nat)
    requires ConsistentRow(r, now) && !r.status.Pending? && !r.status.Failed?
    ensures ConsistentRow(UpdateRow(r, Completed, out, "", now), now)
    ensures r.status.Running? ==> ConsistentRow(UpdateRow(r, Failed, Absent, error, now), now)
  {
  }

  /** A call that is about to update a row finds it claimed. */
  predicate MayUpdate(rows: Table, pc: Pc)
  {
    && (pc.Completing? && pc.n in rows ==> !rows[pc.n].status.Pending? && !rows[pc.n].status.Failed?)
    && (pc.Failing? && pc.n in rows ==> rows[pc.n].status.Running?)
  }

  lemma UpdatesClaimed(cfg: Config, rows: Table, pc: Pc)
    requires PcOk(cfg, rows, pc) && cfg.Valid()
    ensures MayUpdate(rows, pc)
  {
  }

  lemma RowConsistentAfter(cfg: Config, s: State, pc: Pc, a: Action, n: string)
    requires cfg.Valid() && Fires(cfg, s, pc, a) && MayUpdate(s.rows, pc)
    requires n in NextRows(s, a) && (n in s.rows ==> ConsistentRow(s.rows[n], s.clock))
    ensures ConsistentRow(NextRows(s, a)[n], s.clock)
  {
    if n in s.rows && (a.Claim? || a.Complete? || a.Fail?) && a.n == n {
      match a
      case Claim(_, _, input, _) => ClaimConsistent(cfg.defs[n].trigger, input, s.clock);
      case Complete(_, out, _) => UpdateConsistent(s.rows[n], out, "error", s.clock);
      case Fail(_, error, _) => UpdateConsistent(s.rows[n], Absent, error, s.clock);
    }
  }

  lemma ConsistentAfter(cfg: Config, s: State, pc: Pc, a: Action)
    requires cfg.Valid() && Fires(cfg, s, pc, a) && MayUpdate(s.rows, pc) && ConsistentRows(s)
    ensures forall n :: n in NextRows(s, a) ==> ConsistentRow(NextRows(s, a)[n], s.clock)
  {
    forall n | n in NextRows(s, a) ensures ConsistentRow(NextRows(s, a)[n], s.clock) {
      RowConsistentAfter(cfg, s, pc, a, n);
    }
  }

  lemma KeepsConsistent(cfg: Config, s: State, l: Label)
    requires cfg.Valid() && Inv(cfg, s) && ConsistentRows(s)
    ensures ConsistentRows(Apply(cfg, s, l))
  {
    if l.Act? && l.i < |s.calls| {
      NextFires(cfg, s, s.calls[l.i], l.answer);
      var a := Next(cfg, s, s.calls[l.i], l.answer);
      UpdatesClaimed(cfg, s.rows, s.calls[l.i]);
      ConsistentAfter(cfg, s, s.calls[l.i], a);
    }
  }

  /** Rows are consistent in every reachable state; the clock never runs backwards. */
  lemma {:induction false} RowConsistency(cfg: Config, ls: seq<Label>)
    requires cfg.Valid()
    ensures ConsistentRows(Reached(cfg, ls))
  {
    if ls != [] {
      Always(cfg, ls[..|ls| - 1]);
      RowConsistency(cfg, ls[..|ls| - 1]);
      KeepsConsistent(cfg, Reached(cfg, ls[..|ls| - 1]), ls[|ls| - 1]);
    }
  }
}
