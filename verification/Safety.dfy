/** What holds in every reachable state, crashes and overlapping triggers included. */
module Safety {
  import opened Types
  import opened Protocol

  // ---- The path of a step ----

  /** One move of a step of trigger type t. */
  predicate Edge(t: TriggerType, a: Status, b: Status)
  {
    match t
    case Manual => (a.Pending? && b.WaitingManual?) || (a.WaitingManual? && b.Completed?)
    case QueueTi => (a.Pending? && b.WaitingQueueTi?) || (a.WaitingQueueTi? && b.Completed?)
    case Auto => (a.Pending? && b.Running?) || (a.Running? && b.Completed?)
    case Http => (a.Pending? && b.Running?) || (a.Running? && (b.Completed? || b.Failed?))
  }

  /** Any number of moves; no path is longer than two. */
  predicate Along(t: TriggerType, a: Status, b: Status)
  {
    a == b || Edge(t, a, b) || (Edge(t, a, ClaimStatus(t)) && Edge(t, ClaimStatus(t), b))
  }

  /** Every step of the table has moved along its path. */
  ghost predicate Later(cfg: Config, rows: Table, rows': Table)
  {
    && rows.Keys == rows'.Keys
    && forall n :: n in rows && n in cfg.defs ==> Along(cfg.defs[n].trigger, rows[n].status, rows'[n].status)
  }

  // ---- The invariant ----

  ghost predicate Full(cfg: Config, rows: Table)
  {
    rows.Keys == cfg.defs.Keys
  }

  ghost predicate AllFresh(rows: Table)
  {
    forall n :: n in rows ==> rows[n] == FreshRow()
  }

  ghost predicate RowsOk(cfg: Config, rows: Table)
  {
    && (forall n :: n in rows ==> n in cfg.defs)
    && (forall n :: n in rows ==> Along(cfg.defs[n].trigger, Pending, rows[n].status))
    && (forall n :: n in rows && !rows[n].status.Pending? ==> DepsDone(cfg.defs[n].deps, rows))
    && (!Full(cfg, rows) ==> AllFresh(rows))
  }

  /** Steps completed from outside, by TriggerStep. */
  predicate Activated(t: TriggerType)
  {
    t.Manual? || t.QueueTi?
  }

  ghost predicate WonWait(cfg: Config, rows: Table, snap: Table, j: nat, t: TriggerType)
  {
    && Full(cfg, rows) && Later(cfg, snap, rows)
    && j < |cfg.order| && cfg.order[j] in rows
    && cfg.defs[cfg.order[j]].trigger == t && !rows[cfg.order[j]].status.Pending?
  }

  ghost predicate RunsHttp(cfg: Config, rows: Table, n: string)
  {
    Full(cfg, rows) && n in rows && cfg.defs[n].trigger.Http? && rows[n].status.Running?
  }

  /** The rows justify this instance status. */
  ghost predicate Justifies(rows: Table, status: InstanceStatus)
  {
    match status
    case InstanceRunning => true
    case InstanceCompleted => AllCompleted(rows)
    case InstanceFailed => AnyFailed(rows)
  }

  /** What a call may rely on at its position. */
  ghost predicate PcOk(cfg: Config, rows: Table, pc: Pc)
  {
    match pc
    case Creating(k) =>
      k <= |cfg.order| && AllFresh(rows) && (forall n :: n in rows <==> n in cfg.order[..k])
    case Listing => Full(cfg, rows)
    case Looping(snap, j) => Full(cfg, rows) && Later(cfg, snap, rows)
    case Announcing(snap, j) => WonWait(cfg, rows, snap, j, Manual)
    case Watching(snap, j) => WonWait(cfg, rows, snap, j, QueueTi)
    case Sending(n, _) => RunsHttp(cfg, rows, n)
    case Failing(n, _) => RunsHttp(cfg, rows, n)
    case Checking(_, _) => true
    case Completing(n, _) =>
      && Full(cfg, rows) && n in rows
      && (if Activated(cfg.defs[n].trigger)
          then rows[n].status == ClaimStatus(cfg.defs[n].trigger) || rows[n].status.Completed?
          else rows[n].status.Running?)
    case Publishing(n, _) => Full(cfg, rows) && n in rows && rows[n].status.Completed?
    case Terminating(status) => Full(cfg, rows) && Justifies(rows, status) && !status.InstanceRunning?
    case Reporting(status) => Full(cfg, rows) && Justifies(rows, status) && !status.InstanceRunning?
    case Done => true
  }

  /** What a call holds exclusively after a won claim. */
  datatype Ticket = Nothing | Work(n: string) | Ending

  function Holds(cfg: Config, pc: Pc): Ticket
  {
    match pc
    case Announcing(_, j) => if j < |cfg.order| then Work(cfg.order[j]) else Nothing
    case Watching(_, j) => if j < |cfg.order| then Work(cfg.order[j]) else Nothing
    case Sending(n, _) => Work(n)
    case Failing(n, _) => Work(n)
    case Completing(n, _) =>
      if n in cfg.defs && !Activated(cfg.defs[n].trigger) then Work(n) else Nothing
    case Reporting(_) => Ending
    case _ => Nothing
  }

  ghost predicate Exclusive(cfg: Config, calls: seq<Pc>)
  {
    forall i, j :: 0 <= i < |calls| && 0 <= j < |calls| && i != j && Holds(cfg, calls[i]) != Nothing
      ==> Holds(cfg, calls[i]) != Holds(cfg, calls[j])
  }

  /** A claimed step is not pending and a claimed instance is not running. */
  ghost predicate TicketOk(rows: Table, inst: InstanceStatus, t: Ticket)
  {
    match t
    case Nothing => true
    case Work(n) => n in rows && !rows[n].status.Pending?
    case Ending => !inst.InstanceRunning?
  }

  ghost predicate CallsOk(cfg: Config, rows: Table, inst: InstanceStatus, calls: seq<Pc>)
  {
    forall i :: 0 <= i < |calls| ==>
      PcOk(cfg, rows, calls[i]) && TicketOk(rows, inst, Holds(cfg, calls[i]))
  }

  /** While StartInstance inserts the rows, other calls can only check and give up. */
  ghost predicate CreatorAlone(calls: seq<Pc>)
  {
    forall i, j :: 0 <= i < |calls| && 0 <= j < |calls| && i != j && calls[i].Creating?
      ==> calls[j].Checking? || calls[j].Done?
  }

  ghost predicate InstOk(cfg: Config, rows: Table, inst: InstanceStatus)
  {
    inst.InstanceRunning? || (Full(cfg, rows) && Justifies(rows, inst))
  }

  ghost predicate Core(cfg: Config, rows: Table, inst: InstanceStatus, calls: seq<Pc>)
    requires cfg.Valid()
  {
    && RowsOk(cfg, rows)
    && CallsOk(cfg, rows, inst, calls)
    && Exclusive(cfg, calls)
    && CreatorAlone(calls)
    && InstOk(cfg, rows, inst)
  }

  ghost predicate Inv(cfg: Config, s: State)
    requires cfg.Valid()
  {
    Core(cfg, s.rows, s.inst, s.calls)
  }

  // ---- One row moves ----

  lemma LaterTransitive(cfg: Config, a: Table, b: Table, c: Table)
    requires Later(cfg, a, b) && Later(cfg, b, c)
    ensures Later(cfg, a, c)
  {
  }

  /** Row n changes to r, staying on its path. */
  ghost predicate Moves(cfg: Config, rows: Table, n: string, r: Row)
    requires cfg.Valid()
  {
    n in rows && n in cfg.defs && Along(cfg.defs[n].trigger, rows[n].status, r.status)
  }

  lemma AlongTransitive(t: TriggerType, a: Status, b: Status, c: Status)
    requires Along(t, a, b) && Along(t, b, c)
    ensures Along(t, a, c)
  {
  }

  lemma MovedLater(cfg: Config, rows: Table, n: string, r: Row)
    requires cfg.Valid() && Moves(cfg, rows, n, r)
    ensures Later(cfg, rows, rows[n := r])
  {
    assert rows[n := r].Keys == rows.Keys;
  }

  lemma MovedRows(cfg: Config, rows: Table, n: string, r: Row)
    requires cfg.Valid() && Full(cfg, rows) && RowsOk(cfg, rows) && Moves(cfg, rows, n, r)
    requires !r.status.Pending? ==> DepsDone(cfg.defs[n].deps, rows)
    ensures RowsOk(cfg, rows[n := r]) && Full(cfg, rows[n := r]) && Later(cfg, rows, rows[n := r])
  {
    var rows' := rows[n := r];
    MovedLater(cfg, rows, n, r);
    AlongTransitive(cfg.defs[n].trigger, Pending, rows[n].status, r.status);
    assert rows'.Keys == rows.Keys;
    forall m | m in rows' && !rows'[m].status.Pending?
      ensures DepsDone(cfg.defs[m].deps, rows')
    {
      assert DepsDone(cfg.defs[m].deps, rows);
    }
  }

  lemma MovedJustifies(cfg: Config, rows: Table, n: string, r: Row, status: InstanceStatus)
    requires cfg.Valid() && Full(cfg, rows) && Moves(cfg, rows, n, r) && Justifies(rows, status)
    ensures Justifies(rows[n := r], status)
  {
    if status.InstanceFailed? {
      var m :| m in rows && rows[m].status.Failed?;
      assert m in rows[n := r] && rows[n := r][m].status.Failed?;
    }
  }

  /** A row that moves disturbs only a call that has claimed it. */
  lemma MovedPc(cfg: Config, rows: Table, n: string, r: Row, pc: Pc)
    requires cfg.Valid() && Full(cfg, rows) && Moves(cfg, rows, n, r)
    requires PcOk(cfg, rows, pc) && !pc.Creating?
    requires Holds(cfg, pc) == Work(n) ==> pc.Announcing? || pc.Watching?
    ensures PcOk(cfg, rows[n := r], pc)
  {
    var rows' := rows[n := r];
    assert rows'.Keys == rows.Keys;
    if pc.Looping? || pc.Announcing? || pc.Watching? {
      LaterTransitive(cfg, pc.snap, rows, rows');
    }
    if pc.Terminating? || pc.Reporting? {
      MovedJustifies(cfg, rows, n, r, pc.status);
    }
  }

  // ---- Actions ----

  /** An action that changes no row. */
  lemma KeepsGoto(cfg: Config, s: State, i: nat, pc: Pc)
    requires cfg.Valid() && Inv(cfg, s) && i < |s.calls|
    requires PcOk(cfg, s.rows, pc) && !pc.Creating?
    requires s.calls[i].Checking? || s.calls[i].Done? ==> pc.Done? || !AllFresh(s.rows)
    requires Holds(cfg, pc) == Nothing || Holds(cfg, pc) == Holds(cfg, s.calls[i])
    ensures Core(cfg, s.rows, s.inst, s.calls[i := pc])
  {
  }

  lemma StillExclusive(cfg: Config, calls: seq<Pc>, i: nat, pc: Pc)
    requires Exclusive(cfg, calls) && CreatorAlone(calls) && i < |calls|
    requires !calls[i].Creating? && !calls[i].Checking? && !calls[i].Done? && !pc.Creating?
    requires forall k :: 0 <= k < |calls| && k != i && Holds(cfg, pc) != Nothing ==> Holds(cfg, calls[k]) != Holds(cfg, pc)
    ensures Exclusive(cfg, calls[i := pc]) && CreatorAlone(calls[i := pc])
  {
  }

  /** An action that moves row n to r. */
  lemma KeepsMove(cfg: Config, s: State, i: nat, n: string, r: Row, pc: Pc)
    requires cfg.Valid() && Inv(cfg, s) && i < |s.calls|
    requires Full(cfg, s.rows) && Moves(cfg, s.rows, n, r)
    requires !r.status.Pending? && DepsDone(cfg.defs[n].deps, s.rows)
    requires !(s.calls[i].Creating? || s.calls[i].Checking? || s.calls[i].Done?) && !pc.Creating?
    requires PcOk(cfg, s.rows[n := r], pc)
    requires Holds(cfg, pc) == Nothing || (Holds(cfg, pc) == Work(n) && s.rows[n].status.Pending?)
    requires s.rows[n].status.Pending? || Holds(cfg, s.calls[i]) == Work(n) || Activated(cfg.defs[n].trigger)
    ensures Core(cfg, s.rows[n := r], s.inst, s.calls[i := pc])
  {
    var rows', calls' := s.rows[n := r], s.calls[i := pc];
    MovedRows(cfg, s.rows, n, r);
    MovedJustifies(cfg, s.rows, n, r, s.inst);
    forall k | 0 <= k < |calls'|
      ensures PcOk(cfg, rows', calls'[k]) && TicketOk(rows', s.inst, Holds(cfg, calls'[k]))
    {
      if k != i {
        assert PcOk(cfg, s.rows, s.calls[k]) && TicketOk(s.rows, s.inst, Holds(cfg, s.calls[k]));
        MovedPc(cfg, s.rows, n, r, s.calls[k]);
      }
    }
    assert forall k :: 0 <= k < |s.calls| ==> TicketOk(s.rows, s.inst, Holds(cfg, s.calls[k]));
    StillExclusive(cfg, s.calls, i, pc);
  }

  /** A snapshot's readiness still holds in the table: this is why a losing claimant may
      go on with its stale snapshot. */
  lemma StaleReady(cfg: Config, snap: Table, rows: Table, n: string)
    requires cfg.Valid() && Full(cfg, rows) && Later(cfg, snap, rows) && ReadyIn(cfg, snap, n)
    ensures DepsDone(cfg.defs[n].deps, rows)
  {
    forall d | d in cfg.defs[n].deps
      ensures d in rows && rows[d].status.Completed?
    {
      assert d in snap && snap[d].status.Completed?;
    }
  }

  // ---- Every action ----

  /** The next action of call i keeps the invariant. */
  ghost predicate Kept(cfg: Config, s: State, i: nat, answer: HttpResult)
    requires cfg.Valid() && i < |s.calls|
  {
    Inv(cfg, Perform(s, i, Next(cfg, s, s.calls[i], answer)))
  }

  lemma ClaimCore(cfg: Config, s: State, i: nat, snap: Table, j: nat)
    requires cfg.Valid() && Inv(cfg, s) && i < |s.calls| && s.calls[i] == Looping(snap, j)
    requires j < |cfg.order| && ReadyIn(cfg, snap, cfg.order[j]) && TryClaim(cfg, s, snap, j).Claim?
    ensures var a := TryClaim(cfg, s, snap, j); Core(cfg, NextRows(s, a), s.inst, s.calls[i := a.pc])
  {
    assert PcOk(cfg, s.rows, s.calls[i]);
    var n, a := cfg.order[j], TryClaim(cfg, s, snap, j);
    StaleReady(cfg, snap, s.rows, n);
    var r := ClaimRow(s.rows[n], a.status, a.input, s.clock);
    MovedRows(cfg, s.rows, n, r);
    LaterTransitive(cfg, snap, s.rows, s.rows[n := r]);
    KeepsMove(cfg, s, i, n, r, a.pc);
  }

  lemma KeepsClaim(cfg: Config, s: State, i: nat, answer: HttpResult)
    requires cfg.Valid() && Inv(cfg, s) && i < |s.calls| && Next(cfg, s, s.calls[i], answer).Claim?
    ensures Kept(cfg, s, i, answer)
  {
    ClaimCore(cfg, s, i, s.calls[i].snap, s.calls[i].j);
  }

  lemma KeepsComplete(cfg: Config, s: State, i: nat, answer: HttpResult)
    requires cfg.Valid() && Inv(cfg, s) && i < |s.calls| && s.calls[i].Completing?
    ensures Kept(cfg, s, i, answer)
  {
    assert PcOk(cfg, s.rows, s.calls[i]);
    var n, out := s.calls[i].n, s.calls[i].out;
    var r := UpdateRow(s.rows[n], Completed, out, "", s.clock);
    MovedRows(cfg, s.rows, n, r);
    KeepsMove(cfg, s, i, n, r, Publishing(n, out));
  }

  lemma KeepsFail(cfg: Config, s: State, i: nat, answer: HttpResult)
    requires cfg.Valid() && Inv(cfg, s) && i < |s.calls| && s.calls[i].Failing?
    ensures Kept(cfg, s, i, answer)
  {
    assert PcOk(cfg, s.rows, s.calls[i]);
    var n := s.calls[i].n;
    var r := UpdateRow(s.rows[n], Failed, Absent, s.calls[i].error, s.clock);
    MovedRows(cfg, s.rows, n, r);
    KeepsMove(cfg, s, i, n, r, Listing);
  }

  lemma EndCore(cfg: Config, s: State, i: nat, inst: InstanceStatus)
    requires cfg.Valid() && Inv(cfg, s) && i < |s.calls| && s.calls[i] == Terminating(inst)
    requires s.inst.InstanceRunning?
    ensures Core(cfg, s.rows, inst, s.calls[i := Reporting(inst)])
  {
    assert PcOk(cfg, s.rows, s.calls[i]);
  }

  lemma KeepsEnd(cfg: Config, s: State, i: nat, answer: HttpResult)
    requires cfg.Valid() && Inv(cfg, s) && i < |s.calls| && s.calls[i].Terminating? && s.inst.InstanceRunning?
    ensures Kept(cfg, s, i, answer)
  {
    EndCore(cfg, s, i, s.calls[i].status);
  }

  /** The row that an insertion adds was not there. */
  lemma InsertIsNew(cfg: Config, rows: Table, k: nat)
    requires cfg.Valid() && PcOk(cfg, rows, Creating(k)) && k < |cfg.order|
    ensures cfg.order[k] !in rows && cfg.order[k] in cfg.defs
  {
    assert cfg.order[k] in cfg.order && cfg.order[k] !in cfg.order[..k];
  }

  lemma InsertedRows(cfg: Config, rows: Table, k: nat)
    requires cfg.Valid() && PcOk(cfg, rows, Creating(k)) && k < |cfg.order| && RowsOk(cfg, rows)
    ensures var rows' := rows[cfg.order[k] := FreshRow()];
            RowsOk(cfg, rows') && PcOk(cfg, rows', Creating(k + 1)) && !Full(cfg, rows)
  {
    InsertIsNew(cfg, rows, k);
    assert cfg.order[..k + 1] == cfg.order[..k] + [cfg.order[k]];
  }

  lemma KeepsInsert(cfg: Config, s: State, i: nat, answer: HttpResult)
    requires cfg.Valid() && Inv(cfg, s) && i < |s.calls| && s.calls[i].Creating? && s.calls[i].k < |cfg.order|
    ensures Kept(cfg, s, i, answer)
  {
    var k := s.calls[i].k;
    assert PcOk(cfg, s.rows, s.calls[i]);
    InsertedRows(cfg, s.rows, k);
    var rows', calls' := s.rows[cfg.order[k] := FreshRow()], s.calls[i := Creating(k + 1)];
    forall m | 0 <= m < |calls'|
      ensures PcOk(cfg, rows', calls'[m]) && TicketOk(rows', s.inst, Holds(cfg, calls'[m]))
    {
      if m != i { assert s.calls[m].Checking? || s.calls[m].Done?; }
    }
    assert Exclusive(cfg, calls') && CreatorAlone(calls');
  }

  lemma KeepsCreated(cfg: Config, s: State, i: nat, k: nat)
    requires cfg.Valid() && Inv(cfg, s) && i < |s.calls| && s.calls[i] == Creating(k) && k >= |cfg.order|
    ensures Core(cfg, s.rows, s.inst, s.calls[i := Listing])
  {
    assert PcOk(cfg, s.rows, s.calls[i]);
    assert cfg.order[..k] == cfg.order;
    assert s.rows.Keys == cfg.defs.Keys;
    KeepsGoto(cfg, s, i, Listing);
  }

  /** Where an action that does not write to the database may lead. */
  ghost predicate MayGo(cfg: Config, rows: Table, pc: Pc, pc': Pc)
  {
    && PcOk(cfg, rows, pc') && !pc'.Creating?
    && (pc.Checking? || pc.Done? ==> pc'.Done? || !AllFresh(rows))
    && (Holds(cfg, pc') == Nothing || Holds(cfg, pc') == Holds(cfg, pc))
  }

  lemma AcceptsOk(cfg: Config, s: State, n: string, out: Json)
    requires cfg.Valid() && RowsOk(cfg, s.rows) && n in s.rows && s.rows[n].status.Waiting()
    ensures MayGo(cfg, s.rows, Checking(n, out), Completing(n, out))
  {
    assert Along(cfg.defs[n].trigger, Pending, s.rows[n].status);
  }

  lemma MovesOk(cfg: Config, s: State, pc: Pc, answer: HttpResult)
    requires cfg.Valid() && RowsOk(cfg, s.rows) && PcOk(cfg, s.rows, pc) && !pc.Creating?
    requires Next(cfg, s, pc, answer).Move?
    ensures MayGo(cfg, s.rows, pc, Next(cfg, s, pc, answer).pc)
  {
    if pc.Checking? && pc.n in s.rows && s.rows[pc.n].status.Waiting() {
      AcceptsOk(cfg, s, pc.n, pc.out);
    }
  }

  lemma KeepsMoving(cfg: Config, s: State, i: nat, answer: HttpResult)
    requires cfg.Valid() && Inv(cfg, s) && i < |s.calls| && Next(cfg, s, s.calls[i], answer).Move?
    ensures Kept(cfg, s, i, answer)
  {
    if s.calls[i].Creating? {
      KeepsCreated(cfg, s, i, s.calls[i].k);
    } else {
      MovesOk(cfg, s, s.calls[i], answer);
      KeepsGoto(cfg, s, i, Next(cfg, s, s.calls[i], answer).pc);
    }
  }

  lemma KeepsNext(cfg: Config, s: State, i: nat, answer: HttpResult)
    requires cfg.Valid() && Inv(cfg, s) && i < |s.calls|
    ensures Kept(cfg, s, i, answer)
  {
    if Next(cfg, s, s.calls[i], answer).Move? {
      KeepsMoving(cfg, s, i, answer);
    } else {
      match s.calls[i]
      case Creating(_) => KeepsInsert(cfg, s, i, answer);
      case Looping(_, _) => KeepsClaim(cfg, s, i, answer);
      case Completing(_, _) => KeepsComplete(cfg, s, i, answer);
      case Failing(_, _) => KeepsFail(cfg, s, i, answer);
      case Terminating(_) => KeepsEnd(cfg, s, i, answer);
    }
  }

  lemma KeepsTrigger(cfg: Config, s: State, n: string, out: Json)
    requires cfg.Valid() && Inv(cfg, s)
    ensures Core(cfg, s.rows, s.inst, s.calls + [Checking(n, out)])
  {
  }

  lemma KeepsApply(cfg: Config, s: State, l: Label)
    requires cfg.Valid() && Inv(cfg, s)
    ensures Inv(cfg, Apply(cfg, s, l))
  {
    match l
    case Act(i, answer) => if i < |s.calls| { KeepsNext(cfg, s, i, answer); }
    case Crash(i) => if i < |s.calls| { KeepsGoto(cfg, s, i, Done); }
    case Trigger(n, out) => KeepsTrigger(cfg, s, n, out);
    case Tick(d) =>
  }

  /** The invariant holds after every run. */
  lemma {:induction false} Always(cfg: Config, ls: seq<Label>)
    requires cfg.Valid()
    ensures Inv(cfg, Reached(cfg, ls))
  {
    if ls == [] {
      assert forall n :: n in cfg.order[..0] <==> n in Init().rows;
    } else {
      Always(cfg, ls[..|ls| - 1]);
      KeepsApply(cfg, Reached(cfg, ls[..|ls| - 1]), ls[|ls| - 1]);
    }
  }
}
