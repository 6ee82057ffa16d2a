/** The order in which steps were completed: a witness that nothing completes before its
    dependencies, and the induction that the theorems about whole runs use. */
module History {
  import opened Types
  import opened Protocol
  import opened Safety
  import opened Actions

  /** The dependencies of the k-th completed step come before it. */
  ghost predicate Precede(cfg: Config, done: seq<string>, k: nat)
    requires k < |done|
  {
    done[k] in cfg.defs && forall d :: d in cfg.defs[done[k]].deps ==> d in done[..k]
  }

  /** `done` lists the completed steps, each after all its dependencies. */
  ghost predicate Ordered(cfg: Config, rows: Table, done: seq<string>)
  {
    && (forall n :: n in done <==> n in rows && rows[n].status.Completed?)
    && (forall i, j :: 0 <= i < j < |done| ==> done[i] != done[j])
    && (forall k {:trigger Precede(cfg, done, k)} :: 0 <= k < |done| ==> Precede(cfg, done, k))
  }

  lemma AppendKeeps(cfg: Config, done: seq<string>, n: string, k: nat)
    requires k < |done| && Precede(cfg, done, k)
    ensures Precede(cfg, done + [n], k)
  {
    assert (done + [n])[..k] == done[..k];
  }

  lemma OrderedComplete(cfg: Config, s: State, i: nat, n: string, out: Json, pc: Pc)
    requires cfg.Valid() && RowsOk(cfg, s.rows) && Ordered(cfg, s.rows, s.done) && i < |s.calls|
    requires n in s.rows && !s.rows[n].status.Pending? && !s.rows[n].status.Completed?
    ensures var s' := Perform(s, i, Complete(n, out, pc)); Ordered(cfg, s'.rows, s'.done)
  {
    var s' := Perform(s, i, Complete(n, out, pc));
    assert s'.done == s.done + [n] && n in s'.rows;
    forall k | 0 <= k < |s'.done| ensures Precede(cfg, s'.done, k) {
      if k < |s.done| {
        AppendKeeps(cfg, s.done, n, k);
      } else {
        assert DepsDone(cfg.defs[n].deps, s.rows);
        assert s'.done[..k] == s.done;
      }
    }
  }

  /** All other actions complete nothing new. */
  lemma SameCompleted(cfg: Config, s: State, pc: Pc, a: Action, n: string)
    requires cfg.Valid() && Fires(cfg, s, pc, a) && PcOk(cfg, s.rows, pc)
    requires a.Complete? ==> s.rows[a.n].status.Completed?
    ensures (n in NextRows(s, a) && NextRows(s, a)[n].status.Completed?)
       <==> (n in s.rows && s.rows[n].status.Completed?)
  {
    if a.Insert? { InsertIsNew(cfg, s.rows, pc.k); }
  }

  lemma OrderedOther(cfg: Config, s: State, i: nat, a: Action)
    requires cfg.Valid() && Ordered(cfg, s.rows, s.done) && i < |s.calls|
    requires Fires(cfg, s, s.calls[i], a) && PcOk(cfg, s.rows, s.calls[i])
    requires a.Complete? ==> s.rows[a.n].status.Completed?
    ensures var s' := Perform(s, i, a); s'.done == s.done && Ordered(cfg, s'.rows, s'.done)
  {
    forall n
      ensures (n in NextRows(s, a) && NextRows(s, a)[n].status.Completed?)
         <==> (n in s.rows && s.rows[n].status.Completed?)
    {
      SameCompleted(cfg, s, s.calls[i], a, n);
    }
  }

  lemma KeepsOrdered(cfg: Config, s: State, l: Label)
    requires cfg.Valid() && Inv(cfg, s) && Ordered(cfg, s.rows, s.done)
    ensures var s' := Apply(cfg, s, l); Ordered(cfg, s'.rows, s'.done) && s.done <= s'.done
  {
    if l.Act? && l.i < |s.calls| {
      var a := Next(cfg, s, s.calls[l.i], l.answer);
      NextFires(cfg, s, s.calls[l.i], l.answer);
      assert PcOk(cfg, s.rows, s.calls[l.i]);
      if a.Complete? && !s.rows[a.n].status.Completed? {
        OrderedComplete(cfg, s, l.i, a.n, a.out, a.pc);
      } else {
        OrderedOther(cfg, s, l.i, a);
      }
    }
  }

  lemma {:induction false} AlwaysOrdered(cfg: Config, ls: seq<Label>)
    requires cfg.Valid()
    ensures Ordered(cfg, Reached(cfg, ls).rows, Reached(cfg, ls).done)
  {
    if ls != [] {
      Always(cfg, ls[..|ls| - 1]);
      AlwaysOrdered(cfg, ls[..|ls| - 1]);
      KeepsOrdered(cfg, Reached(cfg, ls[..|ls| - 1]), ls[|ls| - 1]);
    }
  }
}
