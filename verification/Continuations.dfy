/** Runs that go on without overwriting an output, and what becomes of an outdated snapshot. */
module Continuations {
  import opened Types
  import opened Protocol
  import opened Safety
  import opened Actions
  import opened Lifecycle
  import opened Setup
  import R = Refinement
  import opened DataFlow
  import opened Overwrites

  // ---- Continuations that overwrite nothing ----

  ghost predicate ByAll(cfg: Config, s: State, ls: seq<Label>, k: nat, s': State)
    requires cfg.Valid()
  {
    k == |ls| ==> NothingOverwritten(cfg, s, ls) && Exec(cfg, s, ls) == s'
  }

  /** These labels do, in a form that the verifier unfolds only where a proof asks for their
      number. */
  ghost predicate By(cfg: Config, s: State, ls: seq<Label>, s': State)
    requires cfg.Valid()
  {
    forall k: nat :: ByAll(cfg, s, ls, k, s')
  }

  /** Some continuation that overwrites nothing leads from s to s'. */
  ghost predicate Continues(cfg: Config, s: State, s': State)
    requires cfg.Valid()
  {
    exists ls :: By(cfg, s, ls, s')
  }

  lemma ContinuesNowhere(cfg: Config, s: State)
    requires cfg.Valid()
    ensures Continues(cfg, s, s)
  {
    assert By(cfg, s, [], s);
  }

  lemma ContinuesOn(cfg: Config, s: State, s': State, l: Label)
    requires cfg.Valid() && Continues(cfg, s, s') && !Replaces(s', l)
    ensures Continues(cfg, s, Apply(cfg, s', l))
  {
    var ls :| By(cfg, s, ls, s');
    assert ByAll(cfg, s, ls, |ls|, s');
    var more := ls + [l];
    assert more[..|more| - 1] == ls;
    assert By(cfg, s, more, Apply(cfg, s', l));
  }

  lemma {:induction false} OverwrittenAppend(cfg: Config, s: State, a: seq<Label>, b: seq<Label>)
    requires cfg.Valid() && NothingOverwritten(cfg, s, a) && NothingOverwritten(cfg, Exec(cfg, s, a), b)
    ensures NothingOverwritten(cfg, s, a + b) && Exec(cfg, s, a + b) == Exec(cfg, Exec(cfg, s, a), b)
  {
    ExecAppend(cfg, s, a, b);
    if b == [] {
      assert a + b == a;
    } else {
      OverwrittenAppend(cfg, s, a, b[..|b| - 1]);
      assert (a + b)[..|a + b| - 1] == a + b[..|b| - 1];
    }
  }

  lemma ContinuesTransitive(cfg: Config, s: State, s1: State, s2: State)
    requires cfg.Valid() && Continues(cfg, s, s1) && Continues(cfg, s1, s2)
    ensures Continues(cfg, s, s2)
  {
    var a :| By(cfg, s, a, s1);
    var b :| By(cfg, s1, b, s2);
    assert ByAll(cfg, s, a, |a|, s1) && ByAll(cfg, s1, b, |b|, s2);
    OverwrittenAppend(cfg, s, a, b);
    assert By(cfg, s, a + b, s2);
  }

  // ---- One call scans its snapshot ----

  /** One action that overwrites nothing. */
  lemma Goes(cfg: Config, s: State, c: nat) returns (s': State)
    requires cfg.Valid() && !Replaces(s, Act(c, NO_ANSWER))
    ensures s' == Apply(cfg, s, Act(c, NO_ANSWER)) && Continues(cfg, s, s')
  {
    ContinuesNowhere(cfg, s);
    ContinuesOn(cfg, s, s, Act(c, NO_ANSWER));
    s' := Apply(cfg, s, Act(c, NO_ANSWER));
  }

  /** Step p of the snapshot is an auto or http step that would be won now. */
  predicate Work(cfg: Config, rows: Table, snap: Table, p: nat)
  {
    && p < |cfg.order| && ReadyIn(cfg, snap, cfg.order[p]) && !Activated(cfg.defs[cfg.order[p]].trigger)
    && cfg.order[p] in rows && rows[cfg.order[p]].status.Pending?
  }

  /** Step n stands in the order at a position from j up to k. */
  ghost predicate Among(cfg: Config, n: string, j: nat, k: nat)
  {
    exists p :: j <= p < k && p < |cfg.order| && cfg.order[p] == n
  }

  /** Row n is as it was, or one of the steps from position j up to k that were ready in the
      snapshot and have begun to wait. */
  ghost predicate WaitsOnly(cfg: Config, snap: Table, rows: Table, rows': Table, j: nat, k: nat, n: string)
  {
    n in rows && n in rows' &&
    (rows'[n] == rows[n] ||
     (Among(cfg, n, j, k) && ReadyIn(cfg, snap, n) && rows[n].status.Pending? && rows'[n].status.Waiting()))
  }

  ghost predicate OnlyWaits(cfg: Config, snap: Table, rows: Table, rows': Table, j: nat, k: nat)
  {
    rows'.Keys == rows.Keys && forall n :: n in rows ==> WaitsOnly(cfg, snap, rows, rows', j, k, n)
  }

  lemma OnlyWaitsTransitive(cfg: Config, snap: Table, a: Table, b: Table, c: Table, j: nat, k: nat)
    requires j <= k && OnlyWaits(cfg, snap, a, b, j, k) && OnlyWaits(cfg, snap, b, c, k, k + 1)
    ensures OnlyWaits(cfg, snap, a, c, j, k + 1)
  {
    forall n | n in a ensures WaitsOnly(cfg, snap, a, c, j, k + 1, n) {
      assert WaitsOnly(cfg, snap, a, b, j, k, n) && WaitsOnly(cfg, snap, b, c, k, k + 1, n);
      if p :| j <= p < k && p < |cfg.order| && cfg.order[p] == n { assert Among(cfg, n, j, k + 1); }
      if Among(cfg, n, k, k + 1) { assert k < |cfg.order| && cfg.order[k] == n && Among(cfg, n, j, k + 1); }
    }
  }

  /** Nobody but call c has moved, and it stands at pc. */
  ghost predicate Moved(s: State, s': State, c: nat, pc: Pc)
  {
    c < |s.calls| && s'.calls == s.calls[c := pc]
  }

  /** The loop goes on to the next step, or wins a manual or queueti step. */
  lemma LooksAt(cfg: Config, s: State, c: nat, snap: Table, j: nat)
    requires cfg.Valid() && c < |s.calls| && s.calls[c] == Looping(snap, j)
    requires j < |cfg.order| && !Work(cfg, s.rows, snap, j)
    ensures var s' := Apply(cfg, s, Act(c, NO_ANSWER));
            && c < |s'.calls| && Moved(s, s', c, s'.calls[c])
            && (s'.calls[c] == Looping(snap, j + 1) || s'.calls[c] == Announcing(snap, j) || s'.calls[c] == Watching(snap, j))
            && OnlyWaits(cfg, snap, s.rows, s'.rows, j, j + 1)
  {
    var s', n := Apply(cfg, s, Act(c, NO_ANSWER)), cfg.order[j];
    assert Among(cfg, n, j, j + 1);
    assert s'.rows == s.rows || (n in s.rows && s'.rows == s.rows[n := s'.rows[n]]);
    assert s'.rows.Keys == s.rows.Keys;
    forall m | m in s.rows ensures WaitsOnly(cfg, snap, s.rows, s'.rows, j, j + 1, m) {}
  }

  lemma Reports(cfg: Config, s: State, c: nat, snap: Table, j: nat)
    requires cfg.Valid() && c < |s.calls| && (s.calls[c] == Announcing(snap, j) || s.calls[c] == Watching(snap, j))
    ensures var s' := Apply(cfg, s, Act(c, NO_ANSWER));
            Moved(s, s', c, Looping(snap, j + 1)) && s'.rows == s.rows
  {
  }

  /** One round of the loop that wins no auto or http step. */
  lemma Round(cfg: Config, s: State, c: nat, snap: Table, j: nat) returns (s': State)
    requires cfg.Valid() && c < |s.calls| && s.calls[c] == Looping(snap, j)
    requires j < |cfg.order| && !Work(cfg, s.rows, snap, j)
    ensures Continues(cfg, s, s') && Moved(s, s', c, Looping(snap, j + 1))
    ensures OnlyWaits(cfg, snap, s.rows, s'.rows, j, j + 1)
  {
    LooksAt(cfg, s, c, snap, j);
    s' := Goes(cfg, s, c);
    if !s'.calls[c].Looping? {
      var s1 := s';
      Reports(cfg, s1, c, snap, j);
      s' := Goes(cfg, s1, c);
      ContinuesTransitive(cfg, s, s1, s');
    }
  }

  /** No step from position j up to k would be won for work. */
  ghost predicate NoWork(cfg: Config, rows: Table, snap: Table, j: nat, k: nat)
  {
    forall p :: j <= p < k ==> !Work(cfg, rows, snap, p)
  }

  lemma StillNoWork(cfg: Config, rows: Table, rows': Table, snap: Table, j: nat, k: nat, i: nat, m: nat)
    requires OnlyWaits(cfg, snap, rows, rows', i, m) && NoWork(cfg, rows, snap, j, k)
    ensures NoWork(cfg, rows', snap, j, k)
  {
    forall p | j <= p < k ensures !Work(cfg, rows', snap, p) {
      assert !Work(cfg, rows, snap, p);
      if p < |cfg.order| && cfg.order[p] in rows { assert WaitsOnly(cfg, snap, rows, rows', i, m, cfg.order[p]); }
    }
  }

  /** A call goes through its snapshot as long as it wins no work. */
  lemma {:induction false} Scan(cfg: Config, s: State, c: nat, snap: Table, j: nat, k: nat) returns (s': State)
    requires cfg.Valid() && c < |s.calls| && s.calls[c] == Looping(snap, j)
    requires j <= k <= |cfg.order| && NoWork(cfg, s.rows, snap, j, k)
    ensures Continues(cfg, s, s') && Moved(s, s', c, Looping(snap, k))
    ensures OnlyWaits(cfg, snap, s.rows, s'.rows, j, k)
    decreases k
  {
    if j == k {
      ContinuesNowhere(cfg, s);
      s' := s;
    } else {
      var s1 := Scan(cfg, s, c, snap, j, k - 1);
      StillNoWork(cfg, s.rows, s1.rows, snap, j, k, j, k - 1);
      s' := Round(cfg, s1, c, snap, k - 1);
      ContinuesTransitive(cfg, s, s1, s');
      OnlyWaitsTransitive(cfg, snap, s.rows, s1.rows, s'.rows, j, k - 1);
    }
  }

  // ---- One call clears the work away ----

  /** Row n is as it was, or one of the steps before position k that is no longer pending and
      has not failed. */
  ghost predicate Advanced(cfg: Config, rows: Table, rows': Table, k: nat, n: string)
  {
    n in rows && n in rows' &&
    (rows'[n] == rows[n] ||
     (Among(cfg, n, 0, k) && rows[n].status.Pending? && !rows'[n].status.Pending? && !rows'[n].status.Failed?))
  }

  ghost predicate OnlyAdvanced(cfg: Config, rows: Table, rows': Table, k: nat)
  {
    rows'.Keys == rows.Keys && forall n :: n in rows ==> Advanced(cfg, rows, rows', k, n)
  }

  lemma OnlyAdvancedTransitive(cfg: Config, a: Table, b: Table, c: Table, k: nat)
    requires OnlyAdvanced(cfg, a, b, k) && OnlyAdvanced(cfg, b, c, k)
    ensures OnlyAdvanced(cfg, a, c, k)
  {
    forall n | n in a ensures Advanced(cfg, a, c, k, n) {
      assert Advanced(cfg, a, b, k, n) && Advanced(cfg, b, c, k, n);
    }
  }

  lemma WaitsAdvance(cfg: Config, snap: Table, rows: Table, rows': Table, j: nat, k: nat)
    requires OnlyWaits(cfg, snap, rows, rows', j, k)
    ensures OnlyAdvanced(cfg, rows, rows', k)
  {
    forall n | n in rows ensures Advanced(cfg, rows, rows', k, n) {
      assert WaitsOnly(cfg, snap, rows, rows', j, k, n);
    }
  }

  /** What advancing leaves alone. */
  lemma AdvancedKeeps(cfg: Config, rows: Table, rows': Table, k: nat)
    requires OnlyAdvanced(cfg, rows, rows', k)
    ensures OutputsKept(rows, rows') && (AnyFailed(rows') ==> AnyFailed(rows))
    ensures forall n :: n in rows' && rows'[n].status.Pending? ==> n in rows && rows[n].status.Pending?
  {
    forall n | n in rows ensures Advanced(cfg, rows, rows', k, n) {}
  }

  lemma WinsWork(cfg: Config, s: State, w: nat, snap: Table, p: nat) returns (s': State)
    requires cfg.Valid() && w < |s.calls| && s.calls[w] == Looping(snap, p) && Work(cfg, s.rows, snap, p)
    ensures Continues(cfg, s, s') && w < |s'.calls| && Moved(s, s', w, s'.calls[w])
    ensures var n := cfg.order[p];
            && ((s'.calls[w].Sending? && s'.calls[w].n == n) || (s'.calls[w].Completing? && s'.calls[w].n == n))
            && n in s'.rows && s'.rows == s.rows[n := s'.rows[n]] && s'.rows[n].status.Running?
  {
    s' := Goes(cfg, s, w);
  }

  lemma GetsAnswer(cfg: Config, s: State, w: nat) returns (s': State)
    requires cfg.Valid() && w < |s.calls| && (s.calls[w].Sending? || s.calls[w].Completing?)
    ensures Continues(cfg, s, s') && w < |s'.calls| && Moved(s, s', w, s'.calls[w])
    ensures s'.calls[w].Completing? && s'.calls[w].n == s.calls[w].n && s'.rows == s.rows
  {
    if s.calls[w].Sending? {
      s' := Goes(cfg, s, w);
    } else {
      ContinuesNowhere(cfg, s);
      s' := s;
      assert s.calls[w := s.calls[w]] == s.calls;
    }
  }

  lemma WritesWork(cfg: Config, s: State, w: nat) returns (s': State)
    requires cfg.Valid() && w < |s.calls| && s.calls[w].Completing?
    requires s.calls[w].n in s.rows && !s.rows[s.calls[w].n].status.Completed?
    ensures Continues(cfg, s, s') && w < |s'.calls| && Moved(s, s', w, s'.calls[w])
    ensures var n := s.calls[w].n;
            && s'.calls[w].Publishing? && n in s'.rows && s'.rows == s.rows[n := s'.rows[n]]
            && s'.rows[n].status.Completed?
  {
    s' := Goes(cfg, s, w);
  }

  lemma PublishesOutput(cfg: Config, s: State, w: nat) returns (s': State)
    requires cfg.Valid() && w < |s.calls| && s.calls[w].Publishing?
    ensures Continues(cfg, s, s') && Moved(s, s', w, Listing) && s'.rows == s.rows
  {
    s' := Goes(cfg, s, w);
  }

  lemma ListsRows(cfg: Config, s: State, w: nat) returns (s': State)
    requires cfg.Valid() && w < |s.calls| && s.calls[w].Listing?
    requires !AnyFailed(s.rows) && !AllFinished(s.rows)
    ensures Continues(cfg, s, s') && Moved(s, s', w, Looping(s.rows, 0)) && s'.rows == s.rows
  {
    s' := Goes(cfg, s, w);
  }

  /** The call wins the step, does its work, and is about to list. */
  lemma DoWork(cfg: Config, s: State, w: nat, snap: Table, p: nat) returns (s': State)
    requires cfg.Valid() && w < |s.calls| && s.calls[w] == Looping(snap, p) && Work(cfg, s.rows, snap, p)
    ensures Continues(cfg, s, s') && Moved(s, s', w, Listing)
    ensures cfg.order[p] in s'.rows && s'.rows == s.rows[cfg.order[p] := s'.rows[cfg.order[p]]]
    ensures s'.rows[cfg.order[p]].status.Completed?
  {
    var s1 := WinsWork(cfg, s, w, snap, p);
    var s2 := GetsAnswer(cfg, s1, w);
    var s3 := WritesWork(cfg, s2, w);
    s' := PublishesOutput(cfg, s3, w);
    ContinuesTransitive(cfg, s, s1, s2);
    ContinuesTransitive(cfg, s, s2, s3);
    ContinuesTransitive(cfg, s, s3, s');
  }

  /** The first work before position k, if there is any. */
  lemma {:induction false} FirstWork(cfg: Config, rows: Table, snap: Table, k: nat) returns (p: nat)
    ensures p <= k && NoWork(cfg, rows, snap, 0, p) && (p < k ==> Work(cfg, rows, snap, p))
    decreases k
  {
    if k == 0 {
      p := 0;
    } else {
      p := FirstWork(cfg, rows, snap, k - 1);
      if p == k - 1 && !Work(cfg, rows, snap, p) { p := k; }
    }
  }

  lemma DoneWork(cfg: Config, rows: Table, rows': Table, p: nat, k: nat)
    requires p < k && p < |cfg.order| && cfg.order[p] in rows && rows[cfg.order[p]].status.Pending?
    requires cfg.order[p] in rows' && rows' == rows[cfg.order[p] := rows'[cfg.order[p]]]
    requires rows'[cfg.order[p]].status.Completed?
    ensures OnlyAdvanced(cfg, rows, rows', k) && R.PendingCount(rows') < R.PendingCount(rows)
  {
    assert Among(cfg, cfg.order[p], 0, k);
    R.FewerPending(rows, cfg.order[p], rows'[cfg.order[p]]);
  }

  lemma Fewer(a: set<string>, b: set<string>)
    requires a <= b
    ensures |a| <= |b|
  {
    assert b == a + (b - a);
  }

  lemma WaitsCount(cfg: Config, snap: Table, rows: Table, rows': Table, j: nat, k: nat)
    requires OnlyWaits(cfg, snap, rows, rows', j, k)
    ensures R.PendingCount(rows') <= R.PendingCount(rows)
  {
    forall n | n in R.Pendings(rows') ensures n in R.Pendings(rows) {
      assert WaitsOnly(cfg, snap, rows, rows', j, k, n);
    }
    Fewer(R.Pendings(rows'), R.Pendings(rows));
  }

  lemma NotBefore(cfg: Config, p: nat)
    requires cfg.Valid() && p < |cfg.order|
    ensures forall j: nat :: !Among(cfg, cfg.order[p], j, p)
  {
    assert cfg.order[p] !in cfg.order[..p];
    forall q | 0 <= q < p ensures cfg.order[q] != cfg.order[p] { assert cfg.order[..p][q] == cfg.order[q]; }
  }

  lemma WaitsAdvanceTo(cfg: Config, snap: Table, rows: Table, rows': Table, p: nat, k: nat)
    requires OnlyWaits(cfg, snap, rows, rows', 0, p) && p <= k
    ensures OnlyAdvanced(cfg, rows, rows', k)
  {
    forall n | n in rows ensures Advanced(cfg, rows, rows', k, n) {
      assert WaitsOnly(cfg, snap, rows, rows', 0, p, n);
      if q :| 0 <= q < p && q < |cfg.order| && cfg.order[q] == n { assert Among(cfg, n, 0, k); }
    }
  }

  /** It lists and does the first work that it finds. */
  lemma ClearOne(cfg: Config, s: State, w: nat, p: nat, k: nat) returns (s': State)
    requires cfg.Valid() && w < |s.calls| && s.calls[w].Listing? && !AnyFailed(s.rows)
    requires p < k <= |cfg.order| && NoWork(cfg, s.rows, s.rows, 0, p) && Work(cfg, s.rows, s.rows, p)
    ensures Continues(cfg, s, s') && Moved(s, s', w, Listing) && !AnyFailed(s'.rows)
    ensures OnlyAdvanced(cfg, s.rows, s'.rows, k) && R.PendingCount(s'.rows) < R.PendingCount(s.rows)
  {
    assert !AllFinished(s.rows);
    var s1 := ListsRows(cfg, s, w);
    var s2 := Scan(cfg, s1, w, s.rows, 0, p);
    NotBefore(cfg, p);
    assert WaitsOnly(cfg, s.rows, s.rows, s2.rows, 0, p, cfg.order[p]);
    s' := DoWork(cfg, s2, w, s.rows, p);
    ContinuesTransitive(cfg, s, s1, s2);
    ContinuesTransitive(cfg, s, s2, s');
    WaitsAdvanceTo(cfg, s.rows, s.rows, s2.rows, p, k);
    WaitsCount(cfg, s.rows, s.rows, s2.rows, 0, p);
    DoneWork(cfg, s2.rows, s'.rows, p, k);
    OnlyAdvancedTransitive(cfg, s.rows, s2.rows, s'.rows, k);
    AdvancedKeeps(cfg, s.rows, s'.rows, k);
  }

  /** A call that is about to list can do all the work before position k, and no more. */
  lemma {:induction false} Clear(cfg: Config, s: State, w: nat, k: nat) returns (s': State)
    requires cfg.Valid() && w < |s.calls| && s.calls[w].Listing?
    requires k <= |cfg.order| && !AnyFailed(s.rows)
    ensures Continues(cfg, s, s') && Moved(s, s', w, Listing)
    ensures OnlyAdvanced(cfg, s.rows, s'.rows, k) && NoWork(cfg, s'.rows, s'.rows, 0, k)
    decreases R.PendingCount(s.rows)
  {
    var p := FirstWork(cfg, s.rows, s.rows, k);
    if p == k {
      ContinuesNowhere(cfg, s);
      s' := s;
    } else {
      var s1 := ClearOne(cfg, s, w, p, k);
      s' := Clear(cfg, s1, w, k);
      ContinuesTransitive(cfg, s, s1, s');
      OnlyAdvancedTransitive(cfg, s.rows, s1.rows, s'.rows, k);
    }
  }

  // ---- An outdated snapshot is used in the end ----

  lemma InvContinues(cfg: Config, s: State, s': State)
    requires cfg.Valid() && Inv(cfg, s) && Continues(cfg, s, s')
    ensures Inv(cfg, s')
  {
    var ls :| By(cfg, s, ls, s');
    assert ByAll(cfg, s, ls, |ls|, s');
    InvExec(cfg, s, ls);
  }

  /** The call reports what it has claimed, if anything, and stands in its loop. */
  lemma InLoop(cfg: Config, s: State, c: nat) returns (s': State)
    requires cfg.Valid() && c < |s.calls| && HoldsSnapshot(s.calls[c])
    ensures Continues(cfg, s, s') && s'.rows == s.rows
    ensures Moved(s, s', c, Looping(s.calls[c].snap, From(s.calls[c])))
  {
    var pc := s.calls[c];
    if pc.Looping? {
      ContinuesNowhere(cfg, s);
      s' := s;
      assert s.calls[c := pc] == s.calls;
    } else {
      Reports(cfg, s, c, pc.snap, pc.j);
      s' := Goes(cfg, s, c);
    }
  }

  lemma ClaimsStep(cfg: Config, s: State, c: nat, snap: Table, k: nat) returns (s': State)
    requires cfg.Valid() && c < |s.calls| && s.calls[c] == Looping(snap, k) && Claimable(cfg, s.rows, s.calls[c], k)
    ensures Continues(cfg, s, s')
    ensures var n := cfg.order[k];
            && n in s'.rows && !s'.rows[n].status.Pending? && !s'.rows[n].status.Completed?
            && s'.rows == s.rows[n := s'.rows[n]] && s'.rows[n].input == StepInput(cfg.defs[n], snap)
  {
    s' := Goes(cfg, s, c);
  }

  /** A call that can claim step k, and no work before it, gets to claim it. */
  lemma ClaimsInTheEnd(cfg: Config, s: State, c: nat, k: nat) returns (s': State)
    requires cfg.Valid() && c < |s.calls| && Claimable(cfg, s.rows, s.calls[c], k)
    requires NoWork(cfg, s.rows, s.calls[c].snap, From(s.calls[c]), k)
    ensures Continues(cfg, s, s') && OutputsKept(s.rows, s'.rows)
    ensures var n := cfg.order[k];
            n in s'.rows && !s'.rows[n].status.Pending? && s'.rows[n].input == StepInput(cfg.defs[n], s.calls[c].snap)
  {
    var pc, n := s.calls[c], cfg.order[k];
    var s1 := InLoop(cfg, s, c);
    var s2 := Scan(cfg, s1, c, pc.snap, From(pc), k);
    NotBefore(cfg, k);
    assert WaitsOnly(cfg, pc.snap, s.rows, s2.rows, From(pc), k, n);
    WaitsAdvance(cfg, pc.snap, s.rows, s2.rows, From(pc), k);
    AdvancedKeeps(cfg, s.rows, s2.rows, k);
    s' := ClaimsStep(cfg, s2, c, pc.snap, k);
    ContinuesTransitive(cfg, s, s1, s2);
    ContinuesTransitive(cfg, s, s2, s');
  }

  /** A call wins the first work that it gets to; s1 is the state before. */
  lemma WinsInTheEnd(cfg: Config, s: State, c: nat, p: nat) returns (s1: State, s': State)
    requires cfg.Valid() && c < |s.calls| && HoldsSnapshot(s.calls[c]) && From(s.calls[c]) <= p
    requires Work(cfg, s.rows, s.calls[c].snap, p) && NoWork(cfg, s.rows, s.calls[c].snap, From(s.calls[c]), p)
    ensures Continues(cfg, s, s1) && OnlyWaits(cfg, s.calls[c].snap, s.rows, s1.rows, From(s.calls[c]), p)
    ensures Continues(cfg, s, s') && c < |s'.calls| && Moved(s, s', c, s'.calls[c]) && OutputsKept(s.rows, s'.rows)
    ensures var n := cfg.order[p];
            n in s'.rows && s'.rows == s1.rows[n := s'.rows[n]] && !s'.rows[n].status.Pending?
  {
    var pc := s.calls[c];
    var s0 := InLoop(cfg, s, c);
    s1 := Scan(cfg, s0, c, pc.snap, From(pc), p);
    NotBefore(cfg, p);
    assert WaitsOnly(cfg, pc.snap, s.rows, s1.rows, From(pc), p, cfg.order[p]);
    WaitsAdvance(cfg, pc.snap, s.rows, s1.rows, From(pc), p);
    AdvancedKeeps(cfg, s.rows, s1.rows, p);
    s' := WinsWork(cfg, s1, c, pc.snap, p);
    ContinuesTransitive(cfg, s, s0, s1);
    ContinuesTransitive(cfg, s, s1, s');
  }

  /** So an outdated input is used: at once if no work is in between, ... */
  lemma UsedAtOnce(cfg: Config, s: State, c: nat, k: nat) returns (s': State)
    requires cfg.Valid() && Inv(cfg, s) && c < |s.calls| && !StillCurrent(cfg, s.rows, s.calls[c], k)
    requires NoWork(cfg, s.rows, s.calls[c].snap, From(s.calls[c]), k)
    ensures Continues(cfg, s, s') && !InputsCurrent(cfg, s'.rows)
  {
    var n := cfg.order[k];
    s' := ClaimsInTheEnd(cfg, s, c, k);
    assert PcOk(cfg, s.rows, s.calls[c]);
    StaleReady(cfg, s.calls[c].snap, s.rows, n);
    InputIsStable(cfg.defs[n], s.rows, s'.rows);
  }

  lemma NoWorkForSnapshot(cfg: Config, rows: Table, snap: Table, j: nat, k: nat)
    requires cfg.Valid() && Full(cfg, rows) && Later(cfg, snap, rows) && NoWork(cfg, rows, rows, 0, k)
    ensures NoWork(cfg, rows, snap, j, k)
  {
    forall p | j <= p < k ensures !Work(cfg, rows, snap, p) {
      assert !Work(cfg, rows, rows, p);
      if Work(cfg, rows, snap, p) { StaleReady(cfg, snap, rows, cfg.order[p]); }
    }
  }

  /** ... or after another call, which is about to list, has done that work. */
  lemma UsedLater(cfg: Config, s: State, c: nat, k: nat, w: nat) returns (s': State)
    requires cfg.Valid() && Inv(cfg, s) && c < |s.calls| && !StillCurrent(cfg, s.rows, s.calls[c], k)
    requires w < |s.calls| && s.calls[w].Listing? && !AnyFailed(s.rows)
    ensures Continues(cfg, s, s') && !InputsCurrent(cfg, s'.rows)
  {
    var pc, n := s.calls[c], cfg.order[k];
    var s1 := Clear(cfg, s, w, k);
    InvContinues(cfg, s, s1);
    NotBefore(cfg, k);
    assert Advanced(cfg, s.rows, s1.rows, k, n);
    assert PcOk(cfg, s.rows, pc) && s1.calls[c] == pc && PcOk(cfg, s1.rows, s1.calls[c]);
    AdvancedKeeps(cfg, s.rows, s1.rows, k);
    StaleReady(cfg, pc.snap, s.rows, n);
    InputIsStable(cfg.defs[n], s.rows, s1.rows);
    NoWorkForSnapshot(cfg, s1.rows, pc.snap, From(pc), k);
    s' := UsedAtOnce(cfg, s1, c, k);
    ContinuesTransitive(cfg, s, s1, s');
  }
}
