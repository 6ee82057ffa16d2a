/** Overlapping triggers can overwrite an output. Exactly which runs keep the data flow, and
    exactly which write does, whatever comes after it. */
module Overwrites {
  import opened Types
  import opened Protocol
  import opened Safety
  import opened Actions
  import opened Lifecycle
  import opened DataFlow

  // ---- Inputs that calls still hold ----

  predicate HoldsSnapshot(pc: Pc)
  {
    pc.Looping? || pc.Announcing? || pc.Watching?
  }

  /** The first step that the loop has not reached. */
  function From(pc: Pc): nat
    requires HoldsSnapshot(pc)
  {
    if pc.Looping? then pc.j else pc.j + 1
  }

  /** The call may still claim step k from its snapshot. */
  predicate Claimable(cfg: Config, rows: Table, pc: Pc, k: nat)
  {
    && HoldsSnapshot(pc) && From(pc) <= k < |cfg.order| && ReadyIn(cfg, pc.snap, cfg.order[k])
    && cfg.order[k] in rows && rows[cfg.order[k]].status.Pending?
  }

  /** With the input that the rows give it. */
  predicate StillCurrent(cfg: Config, rows: Table, pc: Pc, k: nat)
  {
    Claimable(cfg, rows, pc, k) ==>
      StepInput(cfg.defs[cfg.order[k]], pc.snap) == StepInput(cfg.defs[cfg.order[k]], rows)
  }

  ghost predicate SnapshotSound(cfg: Config, rows: Table, pc: Pc)
  {
    forall k: nat :: StillCurrent(cfg, rows, pc, k)
  }

  /** Every input that was claimed, or can still be claimed from a snapshot, is current. */
  ghost predicate Sound(cfg: Config, s: State)
  {
    InputsCurrent(cfg, s.rows) && forall i :: 0 <= i < |s.calls| ==> SnapshotSound(cfg, s.rows, s.calls[i])
  }

  /** The label replaces an output by another one. */
  predicate Replaces(s: State, l: Label)
  {
    && l.Act? && l.i < |s.calls| && s.calls[l.i].Completing?
    && var n := s.calls[l.i].n;
       n in s.rows && s.rows[n].status.Completed? && s.rows[n].output != s.calls[l.i].out
  }

  ghost predicate NothingOverwritten(cfg: Config, s: State, ls: seq<Label>)
    requires cfg.Valid()
  {
    ls == [] ||
    (NothingOverwritten(cfg, s, ls[..|ls| - 1]) && !Replaces(Exec(cfg, s, ls[..|ls| - 1]), ls[|ls| - 1]))
  }

  // ---- While nothing is overwritten ----

  /** Inputs of claimed steps and outputs are kept, and no step becomes pending. */
  ghost predicate RowsKept(rows: Table, rows': Table)
  {
    && OutputsKept(rows, rows')
    && (forall n :: n in rows && !rows[n].status.Pending? ==>
          n in rows' && !rows'[n].status.Pending? && rows'[n].input == rows[n].input)
  }

  lemma ActionKeepsRow(cfg: Config, s: State, pc: Pc, a: Action, n: string)
    requires cfg.Valid() && PcOk(cfg, s.rows, pc) && Fires(cfg, s, pc, a)
    requires a.Complete? && s.rows[a.n].status.Completed? ==> s.rows[a.n].output == a.out
    requires n in s.rows && !s.rows[n].status.Pending? && (a.Insert? ==> n != a.n)
    ensures var rows' := NextRows(s, a);
            && n in rows' && !rows'[n].status.Pending? && rows'[n].input == s.rows[n].input
            && (s.rows[n].status.Completed? ==> rows'[n].status.Completed? && rows'[n].output == s.rows[n].output)
  {
  }

  lemma ActionKeepsRows(cfg: Config, s: State, pc: Pc, a: Action)
    requires cfg.Valid() && PcOk(cfg, s.rows, pc) && Fires(cfg, s, pc, a)
    requires a.Complete? && s.rows[a.n].status.Completed? ==> s.rows[a.n].output == a.out
    ensures RowsKept(s.rows, NextRows(s, a))
  {
    if a.Insert? { InsertIsNew(cfg, s.rows, pc.k); }
    forall n | n in s.rows && !s.rows[n].status.Pending?
      ensures var rows' := NextRows(s, a);
              && n in rows' && !rows'[n].status.Pending? && rows'[n].input == s.rows[n].input
              && (s.rows[n].status.Completed? ==> rows'[n].status.Completed? && rows'[n].output == s.rows[n].output)
    {
      ActionKeepsRow(cfg, s, pc, a, n);
    }
  }

  /** The rows have only moved on since the snapshot. */
  ghost predicate Since(cfg: Config, rows: Table, pc: Pc)
  {
    HoldsSnapshot(pc) ==> Full(cfg, rows) && Later(cfg, pc.snap, rows)
  }

  lemma StaysStillCurrent(cfg: Config, rows: Table, rows': Table, pc: Pc, k: nat)
    requires cfg.Valid() && Since(cfg, rows, pc) && RowsKept(rows, rows')
    ensures Claimable(cfg, rows', pc, k) ==> Claimable(cfg, rows, pc, k)
    ensures StillCurrent(cfg, rows, pc, k) ==> StillCurrent(cfg, rows', pc, k)
  {
    if Claimable(cfg, rows', pc, k) {
      StaleReady(cfg, pc.snap, rows, cfg.order[k]);
      InputIsStable(cfg.defs[cfg.order[k]], rows, rows');
    }
  }

  lemma SnapshotStays(cfg: Config, rows: Table, rows': Table, pc: Pc)
    requires cfg.Valid() && Since(cfg, rows, pc) && SnapshotSound(cfg, rows, pc) && RowsKept(rows, rows')
    ensures SnapshotSound(cfg, rows', pc)
  {
    forall k: nat ensures StillCurrent(cfg, rows', pc, k) {
      assert StillCurrent(cfg, rows, pc, k);
      StaysStillCurrent(cfg, rows, rows', pc, k);
    }
  }

  /** A call goes on with its snapshot, or with a fresh one. */
  lemma SameOrFresh(cfg: Config, s: State, pc: Pc, a: Action)
    requires cfg.Valid() && PcOk(cfg, s.rows, pc) && Fires(cfg, s, pc, a) && HoldsSnapshot(a.pc)
    ensures Since(cfg, s.rows, a.pc)
    ensures a.pc.snap == s.rows || (HoldsSnapshot(pc) && a.pc.snap == pc.snap && From(pc) <= From(a.pc))
  {
  }

  lemma NextSnapshot(cfg: Config, s: State, pc: Pc, a: Action)
    requires cfg.Valid() && PcOk(cfg, s.rows, pc) && Fires(cfg, s, pc, a) && SnapshotSound(cfg, s.rows, pc)
    ensures SnapshotSound(cfg, s.rows, a.pc) && Since(cfg, s.rows, a.pc)
  {
    if HoldsSnapshot(a.pc) { SameOrFresh(cfg, s, pc, a); }
    forall k: nat ensures StillCurrent(cfg, s.rows, a.pc, k) {
      if HoldsSnapshot(pc) { assert StillCurrent(cfg, s.rows, pc, k); }
    }
  }

  lemma ClaimedInput(cfg: Config, s: State, pc: Pc, a: Action)
    requires cfg.Valid() && PcOk(cfg, s.rows, pc) && Fires(cfg, s, pc, a) && a.Claim?
    ensures NextRows(s, a)[a.n].input == StepInput(cfg.defs[a.n], pc.snap)
    ensures StepInput(cfg.defs[a.n], NextRows(s, a)) == StepInput(cfg.defs[a.n], s.rows)
    ensures Claimable(cfg, s.rows, pc, pc.j) && cfg.order[pc.j] == a.n
  {
    StaleReady(cfg, pc.snap, s.rows, a.n);
    InputIsStable(cfg.defs[a.n], s.rows, NextRows(s, a));
  }

  /** Claimed steps other than the one that the action claims. */
  lemma InputStays(cfg: Config, rows: Table, rows': Table, m: string)
    requires cfg.Valid() && RowsOk(cfg, rows) && RowsKept(rows, rows')
    requires m in rows && !rows[m].status.Pending? && rows[m].input == StepInput(cfg.defs[m], rows)
    ensures rows'[m].input == StepInput(cfg.defs[m], rows')
  {
    InputIsStable(cfg.defs[m], rows, rows');
  }

  lemma InputsAfter(cfg: Config, s: State, i: nat, a: Action)
    requires cfg.Valid() && Inv(cfg, s) && Sound(cfg, s) && i < |s.calls| && Fires(cfg, s, s.calls[i], a)
    requires RowsKept(s.rows, NextRows(s, a))
    ensures InputsCurrent(cfg, NextRows(s, a))
  {
    var rows' := NextRows(s, a);
    assert PcOk(cfg, s.rows, s.calls[i]);
    forall m | m in rows' && m in cfg.defs && !rows'[m].status.Pending?
      ensures rows'[m].input == StepInput(cfg.defs[m], rows')
    {
      if m in s.rows && !s.rows[m].status.Pending? {
        InputStays(cfg, s.rows, rows', m);
      } else {
        ClaimedInput(cfg, s, s.calls[i], a);
        assert StillCurrent(cfg, s.rows, s.calls[i], s.calls[i].j);
      }
    }
  }

  lemma SnapshotsAfter(cfg: Config, s: State, i: nat, a: Action, k: nat)
    requires cfg.Valid() && i < |s.calls| && k < |s.calls| && PcOk(cfg, s.rows, s.calls[i]) && PcOk(cfg, s.rows, s.calls[k])
    requires SnapshotSound(cfg, s.rows, s.calls[i]) && SnapshotSound(cfg, s.rows, s.calls[k])
    requires Fires(cfg, s, s.calls[i], a) && RowsKept(s.rows, NextRows(s, a))
    ensures SnapshotSound(cfg, NextRows(s, a), s.calls[i := a.pc][k])
  {
    if k == i { NextSnapshot(cfg, s, s.calls[i], a); }
    SnapshotStays(cfg, s.rows, NextRows(s, a), s.calls[i := a.pc][k]);
  }

  lemma SoundAction(cfg: Config, s: State, i: nat, a: Action)
    requires cfg.Valid() && Inv(cfg, s) && Sound(cfg, s) && i < |s.calls| && Fires(cfg, s, s.calls[i], a)
    requires a.Complete? && s.rows[a.n].status.Completed? ==> s.rows[a.n].output == a.out
    ensures Sound(cfg, Perform(s, i, a))
  {
    assert PcOk(cfg, s.rows, s.calls[i]) && SnapshotSound(cfg, s.rows, s.calls[i]);
    ActionKeepsRows(cfg, s, s.calls[i], a);
    InputsAfter(cfg, s, i, a);
    var calls' := s.calls[i := a.pc];
    forall k | 0 <= k < |calls'| ensures SnapshotSound(cfg, NextRows(s, a), calls'[k]) {
      assert PcOk(cfg, s.rows, s.calls[k]);
      SnapshotsAfter(cfg, s, i, a, k);
    }
  }

  lemma KeepsSound(cfg: Config, s: State, l: Label)
    requires cfg.Valid() && Inv(cfg, s) && Sound(cfg, s) && !Replaces(s, l)
    ensures Sound(cfg, Apply(cfg, s, l))
  {
    var s' := Apply(cfg, s, l);
    if l.Act? && l.i < |s.calls| {
      NextFires(cfg, s, s.calls[l.i], l.answer);
      SoundAction(cfg, s, l.i, Next(cfg, s, s.calls[l.i], l.answer));
    } else {
      forall k | 0 <= k < |s'.calls| ensures SnapshotSound(cfg, s'.rows, s'.calls[k]) {
        if HoldsSnapshot(s'.calls[k]) { assert s'.calls[k] == s.calls[k]; }
      }
    }
  }

  /** While nothing is overwritten, inputs stay current: those claimed and those still to be
      claimed from a snapshot. */
  lemma {:induction false} StaysSound(cfg: Config, s: State, ls: seq<Label>)
    requires cfg.Valid() && Inv(cfg, s) && Sound(cfg, s) && NothingOverwritten(cfg, s, ls)
    ensures Inv(cfg, Exec(cfg, s, ls)) && Sound(cfg, Exec(cfg, s, ls))
  {
    if ls != [] {
      StaysSound(cfg, s, ls[..|ls| - 1]);
      KeepsSound(cfg, Exec(cfg, s, ls[..|ls| - 1]), ls[|ls| - 1]);
      KeepsApply(cfg, Exec(cfg, s, ls[..|ls| - 1]), ls[|ls| - 1]);
    }
  }

  // ---- Exactly which runs keep the inputs current ----

  /** Two tables in which the dependencies are completed give a step different inputs if and
      only if it has no static input and the output of a dependency differs. */
  lemma InputDiffersIff(def: StepDef, rows: Table, rows': Table)
    requires DepsDone(def.deps, rows) && DepsDone(def.deps, rows')
    ensures StepInput(def, rows') != StepInput(def, rows) <==>
            def.staticInput == Absent && exists d :: d in def.deps && rows'[d].output != rows[d].output
  {
    if def.staticInput == Absent {
      if d :| d in def.deps && rows'[d].output != rows[d].output {
        var a, b := CompletedOutputs(rows), CompletedOutputs(rows');
        var ma := map e | e in a && e in def.deps && a[e] != Absent :: a[e];
        var mb := map e | e in b && e in def.deps && b[e] != Absent :: b[e];
        assert (d in ma) == (rows[d].output != Absent) && (d in mb) == (rows'[d].output != Absent);
        if d in ma && d in mb { assert ma[d] != mb[d]; }
      } else {
        InputAgrees(def, rows, rows');
      }
    }
  }

  /** The output of a dependency has been overwritten since the snapshot. */
  predicate Outdated(def: StepDef, snap: Table, rows: Table)
  {
    def.staticInput == Absent
    && exists d :: d in def.deps && d in snap && d in rows && rows[d].output != snap[d].output
  }

  predicate ClaimsOutdated(cfg: Config, s: State, pc: Pc)
  {
    && pc.Looping? && pc.j < |cfg.order| && Claims(cfg, s, pc)
    && Outdated(cfg.defs[cfg.order[pc.j]], pc.snap, s.rows)
  }

  /** The label overwrites an output that a claimed step has consumed, or claims a step from a
      snapshot in which a dependency has another output than in the rows. */
  ghost predicate Harmful(cfg: Config, s: State, l: Label)
  {
    || (Replaces(s, l) && Consumed(cfg, s.rows, s.calls[l.i].n))
    || (l.Act? && l.i < |s.calls| && ClaimsOutdated(cfg, s, s.calls[l.i]))
  }

  lemma ClaimExact(cfg: Config, s: State, i: nat, a: Action)
    requires cfg.Valid() && Inv(cfg, s) && InputsCurrent(cfg, s.rows) && i < |s.calls|
    requires Fires(cfg, s, s.calls[i], a) && a.Claim?
    ensures InputsCurrent(cfg, NextRows(s, a)) <==> !Outdated(cfg.defs[a.n], s.calls[i].snap, s.rows)
  {
    var pc, rows' := s.calls[i], NextRows(s, a);
    assert PcOk(cfg, s.rows, pc);
    StaleReady(cfg, pc.snap, s.rows, a.n);
    ClaimedInput(cfg, s, pc, a);
    ActionKeepsRows(cfg, s, pc, a);
    InputDiffersIff(cfg.defs[a.n], pc.snap, s.rows);
    assert a.n in rows' && !rows'[a.n].status.Pending?;
    forall m | m in rows' && m in cfg.defs && !rows'[m].status.Pending? && m != a.n
      ensures rows'[m].input == StepInput(cfg.defs[m], rows')
    {
      InputStays(cfg, s.rows, rows', m);
    }
  }

  lemma OtherExact(cfg: Config, s: State, i: nat, a: Action)
    requires cfg.Valid() && Inv(cfg, s) && InputsCurrent(cfg, s.rows) && i < |s.calls|
    requires Fires(cfg, s, s.calls[i], a) && !a.Claim? && !a.Complete?
    ensures InputsCurrent(cfg, NextRows(s, a))
  {
    var rows' := NextRows(s, a);
    assert PcOk(cfg, s.rows, s.calls[i]);
    ActionKeepsRows(cfg, s, s.calls[i], a);
    forall m | m in rows' && m in cfg.defs && !rows'[m].status.Pending?
      ensures rows'[m].input == StepInput(cfg.defs[m], rows')
    {
      InputStays(cfg, s.rows, rows', m);
    }
  }

  lemma ClaimIsHarmful(cfg: Config, s: State, pc: Pc, a: Action)
    requires cfg.Valid() && Fires(cfg, s, pc, a)
    ensures ClaimsOutdated(cfg, s, pc) <==> a.Claim? && Outdated(cfg.defs[a.n], pc.snap, s.rows)
  {
  }

  /** Exactly which single step of a run keeps the inputs current. */
  lemma HarmExact(cfg: Config, s: State, l: Label)
    requires cfg.Valid() && Inv(cfg, s) && InputsCurrent(cfg, s.rows)
    ensures InputsCurrent(cfg, Apply(cfg, s, l).rows) <==> !Harmful(cfg, s, l)
  {
    if l.Act? && l.i < |s.calls| {
      var a := Next(cfg, s, s.calls[l.i], l.answer);
      NextFires(cfg, s, s.calls[l.i], l.answer);
      ClaimIsHarmful(cfg, s, s.calls[l.i], a);
      if a.Claim? {
        ClaimExact(cfg, s, l.i, a);
      } else if a.Complete? {
        OverlapExact(cfg, s, l.i, l.answer);
      } else {
        OtherExact(cfg, s, l.i, a);
      }
    }
  }

  /** At every moment of the run every claimed step's input is what its dependencies' outputs
      make it. */
  ghost predicate CurrentThroughout(cfg: Config, ls: seq<Label>)
    requires cfg.Valid()
  {
    InputsCurrent(cfg, Reached(cfg, ls).rows) && (ls == [] || CurrentThroughout(cfg, ls[..|ls| - 1]))
  }

  ghost predicate NeverHarmful(cfg: Config, ls: seq<Label>)
    requires cfg.Valid()
  {
    ls == [] ||
    (NeverHarmful(cfg, ls[..|ls| - 1]) && !Harmful(cfg, Reached(cfg, ls[..|ls| - 1]), ls[|ls| - 1]))
  }

  /** A run keeps the inputs current throughout if and only if it never overwrites an output
      that was consumed and never claims from a snapshot in which a dependency has another
      output than in the rows. Crashes and overlapping triggers may occur. */
  lemma {:induction false} InputsCurrentIff(cfg: Config, ls: seq<Label>)
    requires cfg.Valid()
    ensures CurrentThroughout(cfg, ls) <==> NeverHarmful(cfg, ls)
  {
    if ls != [] {
      var before, l := ls[..|ls| - 1], ls[|ls| - 1];
      InputsCurrentIff(cfg, before);
      if CurrentThroughout(cfg, before) {
        Always(cfg, before);
        HarmExact(cfg, Reached(cfg, before), l);
      }
    }
  }
}
