/** Sums over the calls in flight: what is conserved, how much work a run can do. */
module Counting {
  import opened Types
  import opened Protocol
  import opened Safety
  import opened Actions

  /** The total weight of the calls. */
  ghost function Sum(calls: seq<Pc>, w: Pc -> nat): nat
  {
    if calls == [] then 0 else Sum(calls[..|calls| - 1], w) + w(calls[|calls| - 1])
  }

  lemma {:induction false} SumUpdate(calls: seq<Pc>, i: nat, pc: Pc, w: Pc -> nat)
    requires i < |calls|
    ensures Sum(calls[i := pc], w) + w(calls[i]) == Sum(calls, w) + w(pc)
  {
    var m := |calls| - 1;
    if i < m {
      assert calls[i := pc][..m] == calls[..m][i := pc];
      SumUpdate(calls[..m], i, pc, w);
    } else {
      assert calls[i := pc][..m] == calls[..m];
    }
  }

  lemma SumAppend(calls: seq<Pc>, pc: Pc, w: Pc -> nat)
    ensures Sum(calls + [pc], w) == Sum(calls, w) + w(pc)
  {
    assert (calls + [pc])[..|calls|] == calls;
  }

  lemma {:induction false} SumZero(calls: seq<Pc>, w: Pc -> nat)
    requires forall i :: 0 <= i < |calls| ==> w(calls[i]) == 0
    ensures Sum(calls, w) == 0
  {
    if calls != [] { SumZero(calls[..|calls| - 1], w); }
  }

  // ---- Accepted triggers are conserved ----

  /** 1 for a call that is about to complete step n. */
  function AboutToWrite(n: string): Pc -> nat
  {
    (pc: Pc) => if pc.Completing? && pc.n == n then 1 else 0
  }

  /** Writes of a manual or queueti step, done or under way, are its accepted triggers. */
  ghost predicate Conserved(s: State, n: string)
  {
    s.effects[Wrote(n)] + Sum(s.calls, AboutToWrite(n)) == s.effects[Accepted(n)]
  }

  lemma AcceptCost(cfg: Config, s: State, pc: Pc, a: Action, n: string)
    requires cfg.Valid() && Fires(cfg, s, pc, a) && (pc.Sending? ==> RunsHttp(cfg, s.rows, pc.n))
    requires n in cfg.defs && Activated(cfg.defs[n].trigger)
    ensures Emitted(a)[Wrote(n)] + AboutToWrite(n)(a.pc) == AboutToWrite(n)(pc) + Emitted(a)[Accepted(n)]
  {
    EmittedOnce(a, Wrote(n));
    EmittedOnce(a, Accepted(n));
  }

  lemma ConservedAction(cfg: Config, s: State, i: nat, a: Action, n: string)
    requires cfg.Valid() && i < |s.calls| && PcOk(cfg, s.rows, s.calls[i]) && Fires(cfg, s, s.calls[i], a)
    requires n in cfg.defs && Activated(cfg.defs[n].trigger) && Conserved(s, n)
    ensures Conserved(Perform(s, i, a), n)
  {
    SumUpdate(s.calls, i, a.pc, AboutToWrite(n));
    AcceptCost(cfg, s, s.calls[i], a, n);
  }

  lemma ConservedApply(cfg: Config, s: State, l: Label, n: string)
    requires cfg.Valid() && Inv(cfg, s) && !l.Crash?
    requires n in cfg.defs && Activated(cfg.defs[n].trigger) && Conserved(s, n)
    ensures Conserved(Apply(cfg, s, l), n)
  {
    if l.Act? && l.i < |s.calls| {
      NextFires(cfg, s, s.calls[l.i], l.answer);
      ConservedAction(cfg, s, l.i, Next(cfg, s, s.calls[l.i], l.answer), n);
    } else if l.Trigger? {
      SumAppend(s.calls, Checking(l.n, l.out), AboutToWrite(n));
    }
  }

  lemma {:induction false} TriggerConservation(cfg: Config, ls: seq<Label>, n: string)
    requires cfg.Valid() && CrashFree(ls) && n in cfg.defs && Activated(cfg.defs[n].trigger)
    ensures Conserved(Reached(cfg, ls), n)
  {
    if ls == [] {
      SumZero(Init().calls, AboutToWrite(n));
    } else {
      Always(cfg, ls[..|ls| - 1]);
      TriggerConservation(cfg, ls[..|ls| - 1], n);
      ConservedApply(cfg, Reached(cfg, ls[..|ls| - 1]), ls[|ls| - 1], n);
    }
  }

  /** When all calls have returned without a crash, a manual or queueti step has been written
      exactly as often as a trigger was accepted: once if and only if one trigger was. */
  lemma WritesEqualAccepted(cfg: Config, ls: seq<Label>, n: string)
    requires cfg.Valid() && CrashFree(ls) && n in cfg.defs && Activated(cfg.defs[n].trigger)
    requires Quiescent(Reached(cfg, ls))
    ensures var effects := Reached(cfg, ls).effects; effects[Wrote(n)] == effects[Accepted(n)]
  {
    TriggerConservation(cfg, ls, n);
    SumZero(Reached(cfg, ls).calls, AboutToWrite(n));
  }

  // ---- How many snapshots ----

  /** Absent a crash this call goes on to take a fresh snapshot. */
  predicate WillList(pc: Pc)
  {
    pc.Creating? || pc.Listing? || pc.Completing? || pc.Publishing? || pc.Sending? || pc.Failing?
  }

  /** 1 for a call that may still take a fresh snapshot without a further claim. */
  function MayList(): Pc -> nat
  {
    (pc: Pc) => if WillList(pc) || pc.Checking? then 1 else 0
  }

  /** The auto and http steps, and those of them that nobody has claimed. */
  ghost function WorkSteps(cfg: Config): set<string>
  {
    set n | n in cfg.defs && !Activated(cfg.defs[n].trigger)
  }

  ghost function Unclaimed(cfg: Config, rows: Table): set<string>
  {
    set n | n in cfg.defs && !Activated(cfg.defs[n].trigger) && !(n in rows && !rows[n].status.Pending?)
  }

  lemma ClaimLowers(cfg: Config, s: State, a: Action)
    requires a.Claim? && a.n in cfg.defs && a.n in s.rows && s.rows[a.n].status.Pending? && !a.status.Pending?
    ensures Unclaimed(cfg, NextRows(s, a))
         == (if Activated(cfg.defs[a.n].trigger) then Unclaimed(cfg, s.rows) else Unclaimed(cfg, s.rows) - {a.n})
    ensures !Activated(cfg.defs[a.n].trigger) ==> a.n in Unclaimed(cfg, s.rows)
  {
  }

  lemma OtherKeeps(cfg: Config, s: State, pc: Pc, a: Action)
    requires cfg.Valid() && PcOk(cfg, s.rows, pc) && Fires(cfg, s, pc, a) && !a.Claim?
    ensures Unclaimed(cfg, NextRows(s, a)) == Unclaimed(cfg, s.rows)
  {
    if a.Insert? { InsertIsNew(cfg, s.rows, pc.k); }
  }

  ghost predicate SnapshotsBounded(cfg: Config, s: State)
  {
    s.effects[Snapshot] + Sum(s.calls, MayList()) + |Unclaimed(cfg, s.rows)|
      <= 1 + s.effects[TriggerCall] + |WorkSteps(cfg)|
  }

  /** A snapshot is paid for by a call that may list, and a call gets to list again only
      by claiming an auto or http step. */
  lemma SnapshotCost(cfg: Config, s: State, pc: Pc, a: Action)
    requires cfg.Valid() && Fires(cfg, s, pc, a)
    ensures Emitted(a)[TriggerCall] == 0
    ensures !a.Claim? ==> Emitted(a)[Snapshot] + MayList()(a.pc) <= MayList()(pc)
    ensures a.Claim? ==> Emitted(a)[Snapshot] == 0 && MayList()(pc) == 0
    ensures a.Claim? ==> MayList()(a.pc) == if Activated(cfg.defs[a.n].trigger) then 0 else 1
  {
    EmittedOnce(a, Snapshot);
    EmittedOnce(a, TriggerCall);
  }

  lemma BoundedAction(cfg: Config, s: State, i: nat, a: Action)
    requires cfg.Valid() && Inv(cfg, s) && SnapshotsBounded(cfg, s) && i < |s.calls|
    requires Fires(cfg, s, s.calls[i], a)
    ensures SnapshotsBounded(cfg, Perform(s, i, a))
  {
    SumUpdate(s.calls, i, a.pc, MayList());
    SnapshotCost(cfg, s, s.calls[i], a);
    assert PcOk(cfg, s.rows, s.calls[i]);
    if a.Claim? {
      ClaimLowers(cfg, s, a);
    } else {
      OtherKeeps(cfg, s, s.calls[i], a);
    }
  }

  lemma BoundedApply(cfg: Config, s: State, l: Label)
    requires cfg.Valid() && Inv(cfg, s) && SnapshotsBounded(cfg, s)
    ensures SnapshotsBounded(cfg, Apply(cfg, s, l))
  {
    match l
    case Act(i, answer) =>
      if i < |s.calls| {
        NextFires(cfg, s, s.calls[i], answer);
        BoundedAction(cfg, s, i, Next(cfg, s, s.calls[i], answer));
      }
    case Crash(i) => if i < |s.calls| { SumUpdate(s.calls, i, Done, MayList()); }
    case Trigger(n, out) => SumAppend(s.calls, Checking(n, out), MayList());
    case Tick(_) =>
  }

  /** Over a whole run, crashes included, the engine takes at most one snapshot for
      StartInstance, one per TriggerStep call and one per auto or http step. */
  lemma {:induction false} WorkBound(cfg: Config, ls: seq<Label>)
    requires cfg.Valid()
    ensures SnapshotsBounded(cfg, Reached(cfg, ls))
    ensures Reached(cfg, ls).effects[Snapshot] <= 1 + Reached(cfg, ls).effects[TriggerCall] + |WorkSteps(cfg)|
  {
    if ls == [] {
      assert Unclaimed(cfg, Init().rows) == WorkSteps(cfg);
      assert Sum(Init().calls, MayList()) == 1;
    } else {
      Always(cfg, ls[..|ls| - 1]);
      WorkBound(cfg, ls[..|ls| - 1]);
      BoundedApply(cfg, Reached(cfg, ls[..|ls| - 1]), ls[|ls| - 1]);
    }
  }

  // ---- Every run comes to rest ----

  function FuelOf(size: nat, pc: Pc): nat
  {
    match pc
    case Creating(k) => 2 * size + 5 + (if k < size then size - k else 0)
    case Listing => 2 * size + 4
    case Looping(_, j) => if j < size then 2 * (size - j) + 1 else 1
    case Announcing(_, j) => if j < size then 2 * (size - j) else 2
    case Watching(_, j) => if j < size then 2 * (size - j) else 2
    case Sending(_, _) => 2 * size + 7
    case Failing(_, _) => 2 * size + 5
    case Checking(_, _) => 2 * size + 7
    case Completing(_, _) => 2 * size + 6
    case Publishing(_, _) => 2 * size + 5
    case Terminating(_) => 3
    case Reporting(_) => 2
    case Done => 0
  }

  /** How many more actions a call can make before it claims a further auto or http step. */
  function Fuel(cfg: Config): Pc -> nat
  {
    (pc: Pc) => FuelOf(|cfg.order|, pc)
  }

  /** The actions that are left, unless further triggers arrive. */
  ghost function Remaining(cfg: Config, s: State): nat
  {
    Sum(s.calls, Fuel(cfg)) + (2 * |cfg.order| + 7) * |Unclaimed(cfg, s.rows)|
  }

  lemma FuelMove(cfg: Config, s: State, pc: Pc, a: Action)
    requires cfg.Valid() && Fires(cfg, s, pc, a) && !pc.Done?
    ensures a.Claim? && !Activated(cfg.defs[a.n].trigger) ==>
              FuelOf(|cfg.order|, a.pc) < FuelOf(|cfg.order|, pc) + 2 * |cfg.order| + 7
    ensures !(a.Claim? && !Activated(cfg.defs[a.n].trigger)) ==>
              FuelOf(|cfg.order|, a.pc) < FuelOf(|cfg.order|, pc)
  {
  }

  /** The unclaimed steps after an action: one less, or the same. */
  lemma UnclaimedAfter(cfg: Config, s: State, pc: Pc, a: Action)
    requires cfg.Valid() && PcOk(cfg, s.rows, pc) && Fires(cfg, s, pc, a)
    ensures |Unclaimed(cfg, NextRows(s, a))|
         == |Unclaimed(cfg, s.rows)| - if a.Claim? && !Activated(cfg.defs[a.n].trigger) then 1 else 0
  {
    if a.Claim? { ClaimLowers(cfg, s, a); } else { OtherKeeps(cfg, s, pc, a); }
  }

  lemma LessLeft(size: nat, before: nat, after: nat, fuel: nat, fuel': nat, u: nat, u': nat)
    requires after + fuel == before + fuel'
    requires (u' == u && fuel' < fuel) || (u' + 1 == u && fuel' < fuel + size)
    ensures after + size * u' < before + size * u
  {
    if u' + 1 == u { assert size * u == size * u' + size; }
  }

  lemma RemainingLowered(cfg: Config, s: State, i: nat, a: Action)
    requires cfg.Valid() && i < |s.calls| && PcOk(cfg, s.rows, s.calls[i]) && !s.calls[i].Done?
    requires Fires(cfg, s, s.calls[i], a)
    ensures Remaining(cfg, Perform(s, i, a)) < Remaining(cfg, s)
  {
    SumUpdate(s.calls, i, a.pc, Fuel(cfg));
    FuelMove(cfg, s, s.calls[i], a);
    UnclaimedAfter(cfg, s, s.calls[i], a);
    LessLeft(2 * |cfg.order| + 7, Sum(s.calls, Fuel(cfg)), Sum(s.calls[i := a.pc], Fuel(cfg)),
             FuelOf(|cfg.order|, s.calls[i]), FuelOf(|cfg.order|, a.pc),
             |Unclaimed(cfg, s.rows)|, |Unclaimed(cfg, NextRows(s, a))|);
  }

  /** Each action of a call that has not returned lowers what is left to do. */
  lemma ActionsEnd(cfg: Config, s: State, i: nat, answer: HttpResult)
    requires cfg.Valid() && i < |s.calls| && PcOk(cfg, s.rows, s.calls[i]) && !s.calls[i].Done?
    ensures Remaining(cfg, Apply(cfg, s, Act(i, answer))) < Remaining(cfg, s)
  {
    var a := Next(cfg, s, s.calls[i], answer);
    NextFires(cfg, s, s.calls[i], answer);
    RemainingLowered(cfg, s, i, a);
  }

  /** The actions in a run that were taken by calls that had not returned. */
  ghost function ActionsTaken(cfg: Config, s: State, ls: seq<Label>): nat
    requires cfg.Valid()
  {
    if ls == [] then 0
    else
      var s', l := Exec(cfg, s, ls[..|ls| - 1]), ls[|ls| - 1];
      ActionsTaken(cfg, s, ls[..|ls| - 1])
      + if l.Act? && l.i < |s'.calls| && !s'.calls[l.i].Done? then 1 else 0
  }

  function TriggersIn(ls: seq<Label>): nat
  {
    if ls == [] then 0
    else TriggersIn(ls[..|ls| - 1]) + if ls[|ls| - 1].Trigger? then 1 else 0
  }

  lemma RemainingOutside(cfg: Config, s: State, l: Label)
    requires cfg.Valid() && !l.Act?
    ensures Remaining(cfg, Apply(cfg, s, l))
         <= Remaining(cfg, s) + if l.Trigger? then 2 * |cfg.order| + 7 else 0
  {
    match l
    case Crash(i) => if i < |s.calls| { SumUpdate(s.calls, i, Done, Fuel(cfg)); }
    case Trigger(n, out) => SumAppend(s.calls, Checking(n, out), Fuel(cfg));
    case Tick(_) =>
  }

  lemma RemainingIdle(cfg: Config, s: State, i: nat, answer: HttpResult)
    requires cfg.Valid() && !(i < |s.calls| && !s.calls[i].Done?)
    ensures Remaining(cfg, Apply(cfg, s, Act(i, answer))) == Remaining(cfg, s)
  {
    if i < |s.calls| {
      assert s.calls[i := Done] == s.calls;
      assert Next(cfg, s, s.calls[i], answer) == Move(Done, None, None);
      assert Apply(cfg, s, Act(i, answer)).calls == s.calls && Apply(cfg, s, Act(i, answer)).rows == s.rows;
    }
  }

  /** What the triggers of a run allow, at `size` each. */
  function Allowed(size: nat, ls: seq<Label>): nat
  {
    if ls == [] then 0
    else Allowed(size, ls[..|ls| - 1]) + if ls[|ls| - 1].Trigger? then size else 0
  }

  lemma {:induction false} AllowedIs(size: nat, ls: seq<Label>)
    ensures Allowed(size, ls) == TriggersIn(ls) * size
  {
    if ls != [] { AllowedIs(size, ls[..|ls| - 1]); }
  }

  lemma RemainingApply(cfg: Config, before: seq<Label>, l: Label)
    requires cfg.Valid()
    ensures var s := Reached(cfg, before);
            Remaining(cfg, Apply(cfg, s, l)) + (if l.Act? && l.i < |s.calls| && !s.calls[l.i].Done? then 1 else 0)
              <= Remaining(cfg, s) + if l.Trigger? then 2 * |cfg.order| + 7 else 0
  {
    var s := Reached(cfg, before);
    if l.Act? && l.i < |s.calls| && !s.calls[l.i].Done? {
      Always(cfg, before);
      ActionsEnd(cfg, s, l.i, l.answer);
    } else if l.Act? {
      RemainingIdle(cfg, s, l.i, l.answer);
    } else {
      RemainingOutside(cfg, s, l);
    }
  }

  lemma {:induction false} RunsEndWithin(cfg: Config, ls: seq<Label>)
    requires cfg.Valid()
    ensures ActionsTaken(cfg, Init(), ls) + Remaining(cfg, Reached(cfg, ls))
         <= Remaining(cfg, Init()) + Allowed(2 * |cfg.order| + 7, ls)
  {
    if ls != [] {
      RunsEndWithin(cfg, ls[..|ls| - 1]);
      RemainingApply(cfg, ls[..|ls| - 1], ls[|ls| - 1]);
    }
  }

  /** However the calls interleave, cyclic workflows included, a run makes only boundedly
      many actions: a fixed number, plus a fixed number per TriggerStep call. */
  lemma RunsEnd(cfg: Config, ls: seq<Label>)
    requires cfg.Valid()
    ensures ActionsTaken(cfg, Init(), ls) + Remaining(cfg, Reached(cfg, ls))
         <= Remaining(cfg, Init()) + TriggersIn(ls) * (2 * |cfg.order| + 7)
  {
    RunsEndWithin(cfg, ls);
    AllowedIs(2 * |cfg.order| + 7, ls);
  }
}
