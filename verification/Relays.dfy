/** Exactly which overwritten output leaves every continuation with current inputs. Once a step
    has failed, no call takes a fresh snapshot any more; a call that still holds one can win
    work once. So a call reaches a step if other calls have won, one each, the work before it. */
module Relays {
  import opened Types
  import opened Protocol
  import opened Safety
  import opened Actions
  import opened Lifecycle
  import opened Progress
  import opened Setup
  import opened DataFlow
  import opened Overwrites
  import C = Continuations

  // ---- Who can reach a step ----

  /** The call can claim step k, which takes the output of n as its input, from its snapshot. */
  predicate Takes(cfg: Config, rows: Table, pc: Pc, n: string, k: nat)
  {
    && Claimable(cfg, rows, pc, k)
    && n in cfg.defs[cfg.order[k]].deps && cfg.defs[cfg.order[k]].staticInput == Absent
  }

  /** Step p is work that the call would win, unless it is among those taken. */
  predicate Blocks(cfg: Config, rows: Table, pc: Pc, taken: set<string>, p: nat)
  {
    HoldsSnapshot(pc) && From(pc) <= p && C.Work(cfg, rows, pc.snap, p) && cfg.order[p] !in taken
  }

  /** No work keeps the call from step k. */
  ghost predicate Free(cfg: Config, rows: Table, pc: Pc, taken: set<string>, k: nat)
  {
    forall p: nat :: p < k ==> !Blocks(cfg, rows, pc, taken, p)
  }

  /** Call c gets to a step that takes the output of n. */
  ghost predicate GetsTo(cfg: Config, rows: Table, calls: seq<Pc>, n: string, taken: set<string>, left: set<nat>,
                         c: nat, k: nat)
  {
    c in left && c < |calls| && Takes(cfg, rows, calls[c], n, k) && Free(cfg, rows, calls[c], taken, k)
  }

  /** The first work that call c gets to is step p. */
  ghost predicate WinsAt(cfg: Config, rows: Table, calls: seq<Pc>, taken: set<string>, left: set<nat>, c: nat, p: nat)
  {
    c in left && c < |calls| && Blocks(cfg, rows, calls[c], taken, p) && Free(cfg, rows, calls[c], taken, p)
  }

  /** One of the calls that are left gets to a step that takes the output of n, after others of
      them have each won some work. */
  ghost predicate Reaches(cfg: Config, rows: Table, calls: seq<Pc>, n: string, taken: set<string>, left: set<nat>)
    decreases |left|
  {
    || (exists c: nat, k: nat :: GetsTo(cfg, rows, calls, n, taken, left, c, k))
    || (exists c: nat, p: nat :: WinsAt(cfg, rows, calls, taken, left, c, p)
                                 && Reaches(cfg, rows, calls, n, taken + {cfg.order[p]}, left - {c}))
  }

  function Below(k: nat): (r: set<nat>)
    ensures forall c: nat :: c in r <==> c < k
  {
    if k == 0 then {} else Below(k - 1) + {k - 1}
  }

  /** Some call in flight holds a snapshot from which it can claim a step that takes the output of n. */
  ghost predicate Held(cfg: Config, s: State, n: string)
  {
    exists c: nat, k: nat :: c < |s.calls| && Takes(cfg, s.rows, s.calls[c], n, k)
  }

  /** Some call in flight can still use the output of n that its snapshot shows. Unless a step
      has failed, another call can always do the work before. */
  ghost predicate Usable(cfg: Config, s: State, n: string)
  {
    if AnyFailed(s.rows) then Reaches(cfg, s.rows, s.calls, n, {}, Below(|s.calls|)) else Held(cfg, s, n)
  }

  /** Only who holds such a snapshot can use it. */
  lemma {:induction false} ReachesHeld(cfg: Config, s: State, n: string, taken: set<string>, left: set<nat>)
    requires Reaches(cfg, s.rows, s.calls, n, taken, left)
    ensures Held(cfg, s, n)
    decreases |left|
  {
    if !(exists c: nat, k: nat :: GetsTo(cfg, s.rows, s.calls, n, taken, left, c, k)) {
      var c: nat, p: nat :| WinsAt(cfg, s.rows, s.calls, taken, left, c, p)
                            && Reaches(cfg, s.rows, s.calls, n, taken + {cfg.order[p]}, left - {c});
      ReachesHeld(cfg, s, n, taken + {cfg.order[p]}, left - {c});
    }
  }

  // ---- A relay reaches the step ----

  /** A step that nobody but a relay may claim: work, or one that takes the output of n. */
  predicate Matters(cfg: Config, n: string, m: string)
  {
    m in cfg.defs &&
    (!Activated(cfg.defs[m].trigger) || (n in cfg.defs[m].deps && cfg.defs[m].staticInput == Absent))
  }

  /** Row m is pending still if it was and it matters, unless it is among those taken. */
  ghost predicate RowStands(cfg: Config, rows: Table, n: string, rows': Table, taken: set<string>, m: string)
  {
    && (m in rows' && rows'[m].status.Pending? ==> m in rows && rows[m].status.Pending? && m !in taken)
    && (m in rows && rows[m].status.Pending? && Matters(cfg, n, m) && m !in taken ==>
          m in rows' && rows'[m].status.Pending?)
  }

  ghost predicate RowsStand(cfg: Config, rows: Table, n: string, rows': Table, taken: set<string>)
  {
    forall m :: RowStands(cfg, rows, n, rows', taken, m)
  }

  /** Nobody has taken a step that takes the output of n. */
  ghost predicate NoneTakes(cfg: Config, n: string, taken: set<string>)
  {
    forall m :: m in taken && m in cfg.defs && n in cfg.defs[m].deps ==> cfg.defs[m].staticInput != Absent
  }

  predicate Differs(cfg: Config, pc: Pc, rows: Table, k: nat)
    requires HoldsSnapshot(pc) && k < |cfg.order| && cfg.order[k] in cfg.defs
  {
    StepInput(cfg.defs[cfg.order[k]], pc.snap) != StepInput(cfg.defs[cfg.order[k]], rows)
  }

  /** The calls that are left still stand where they stood, and every step that they wait for
      has got another input since. */
  ghost predicate CallStands(cfg: Config, rows: Table, calls: seq<Pc>, n: string, s: State, left: set<nat>, c: nat)
  {
    c in left && c < |calls| && HoldsSnapshot(calls[c]) ==>
      && c < |s.calls| && s.calls[c] == calls[c]
      && forall k: nat :: Takes(cfg, rows, calls[c], n, k) ==> Differs(cfg, calls[c], s.rows, k)
  }

  ghost predicate Unmoved(cfg: Config, rows: Table, calls: seq<Pc>, n: string, s: State, taken: set<string>,
                          left: set<nat>)
  {
    && RowsStand(cfg, rows, n, s.rows, taken) && NoneTakes(cfg, n, taken)
    && forall c: nat :: CallStands(cfg, rows, calls, n, s, left, c)
  }

  /** A call that gets to the step uses the old output there. */
  lemma GetsThere(cfg: Config, rows: Table, calls: seq<Pc>, n: string, s: State, taken: set<string>, left: set<nat>,
                  c: nat, k: nat) returns (s': State)
    requires cfg.Valid() && Inv(cfg, s) && Unmoved(cfg, rows, calls, n, s, taken, left)
    requires GetsTo(cfg, rows, calls, n, taken, left, c, k)
    ensures C.Continues(cfg, s, s') && !InputsCurrent(cfg, s'.rows)
  {
    var pc := calls[c];
    assert CallStands(cfg, rows, calls, n, s, left, c) && RowStands(cfg, rows, n, s.rows, taken, cfg.order[k]);
    forall p | From(pc) <= p < k ensures !C.Work(cfg, s.rows, pc.snap, p) {
      assert !Blocks(cfg, rows, pc, taken, p);
      assert RowStands(cfg, rows, n, s.rows, taken, cfg.order[p]);
    }
    s' := C.UsedAtOnce(cfg, s, c, k);
  }

  /** The rows in which call c has looked at its steps up to its first work, and won that. */
  lemma RowsAfterWin(cfg: Config, rows: Table, n: string, a: Table, b: Table, d: Table, taken: set<string>, pc: Pc,
                     p: nat)
    requires cfg.Valid() && RowsStand(cfg, rows, n, a, taken) && RowsOk(cfg, b)
    requires Blocks(cfg, rows, pc, taken, p) && forall k: nat :: k <= p ==> !Takes(cfg, rows, pc, n, k)
    requires C.OnlyWaits(cfg, pc.snap, a, b, From(pc), p)
    requires cfg.order[p] in d && d == b[cfg.order[p] := d[cfg.order[p]]] && !d[cfg.order[p]].status.Pending?
    ensures RowsStand(cfg, rows, n, d, taken + {cfg.order[p]})
  {
    forall m ensures RowStands(cfg, rows, n, d, taken + {cfg.order[p]}, m) {
      assert RowStands(cfg, rows, n, a, taken, m);
      if m in a && m != cfg.order[p] {
        assert C.WaitsOnly(cfg, pc.snap, a, b, From(pc), p, m);
        if b[m] != a[m] {
          var q :| From(pc) <= q < p && q < |cfg.order| && cfg.order[q] == m;
          assert Along(cfg.defs[m].trigger, Pending, b[m].status);
          assert !Takes(cfg, rows, pc, n, q);
        }
      }
    }
  }

  /** The other calls stand where they stood, with the same difference in their inputs. */
  lemma CallsAfterWin(cfg: Config, rows: Table, calls: seq<Pc>, n: string, s: State, s': State, left: set<nat>, c: nat)
    requires cfg.Valid() && Inv(cfg, s) && c < |s.calls| && c < |s'.calls| && s'.calls == s.calls[c := s'.calls[c]]
    requires forall e: nat :: CallStands(cfg, rows, calls, n, s, left, e)
    requires OutputsKept(s.rows, s'.rows)
    ensures forall e: nat :: CallStands(cfg, rows, calls, n, s', left - {c}, e)
  {
    forall e: nat ensures CallStands(cfg, rows, calls, n, s', left - {c}, e) {
      assert CallStands(cfg, rows, calls, n, s, left, e);
      if e in left && e != c && e < |calls| && HoldsSnapshot(calls[e]) {
        assert PcOk(cfg, s.rows, s.calls[e]);
        forall k: nat | Takes(cfg, rows, calls[e], n, k) ensures Differs(cfg, calls[e], s'.rows, k) {
          StaleReady(cfg, calls[e].snap, s.rows, cfg.order[k]);
          InputIsStable(cfg.defs[cfg.order[k]], s.rows, s'.rows);
        }
      }
    }
  }

  /** The first work that the call gets to is still the same. */
  lemma FirstWorkStill(cfg: Config, rows: Table, calls: seq<Pc>, n: string, s: State, taken: set<string>,
                       left: set<nat>,
                       c: nat, p: nat)
    requires cfg.Valid() && Unmoved(cfg, rows, calls, n, s, taken, left) && WinsAt(cfg, rows, calls, taken, left, c, p)
    ensures c < |s.calls| && s.calls[c] == calls[c] && C.Work(cfg, s.rows, calls[c].snap, p)
    ensures C.NoWork(cfg, s.rows, calls[c].snap, From(calls[c]), p)
  {
    assert CallStands(cfg, rows, calls, n, s, left, c) && RowStands(cfg, rows, n, s.rows, taken, cfg.order[p]);
    forall q | From(calls[c]) <= q < p ensures !C.Work(cfg, s.rows, calls[c].snap, q) {
      assert !Blocks(cfg, rows, calls[c], taken, q);
      assert q < |cfg.order| && RowStands(cfg, rows, n, s.rows, taken, cfg.order[q]);
    }
  }

  /** A call that gets to no step that takes the output of n wins the first work it gets to. */
  lemma WinsFirst(cfg: Config, rows: Table, calls: seq<Pc>, n: string, s: State, taken: set<string>, left: set<nat>,
                  c: nat, p: nat) returns (s': State)
    requires cfg.Valid() && Inv(cfg, s) && Unmoved(cfg, rows, calls, n, s, taken, left)
    requires WinsAt(cfg, rows, calls, taken, left, c, p) && forall k: nat :: !GetsTo(cfg, rows, calls, n, taken, left, c, k)
    ensures C.Continues(cfg, s, s') && Unmoved(cfg, rows, calls, n, s', taken + {cfg.order[p]}, left - {c})
  {
    FirstWorkStill(cfg, rows, calls, n, s, taken, left, c, p);
    var s1;
    s1, s' := C.WinsInTheEnd(cfg, s, c, p);
    C.InvContinues(cfg, s, s1);
    forall k: nat | k <= p ensures !Takes(cfg, rows, calls[c], n, k) {
      assert !GetsTo(cfg, rows, calls, n, taken, left, c, k);
    }
    RowsAfterWin(cfg, rows, n, s.rows, s1.rows, s'.rows, taken, calls[c], p);
    assert !Takes(cfg, rows, calls[c], n, p);
    CallsAfterWin(cfg, rows, calls, n, s, s', left, c);
  }

  /** Whoever reaches such a step uses the old output there. */
  lemma {:induction false} Relay(cfg: Config, rows: Table, calls: seq<Pc>, n: string, s: State, taken: set<string>,
                                 left: set<nat>)
    returns (s': State)
    requires cfg.Valid() && Inv(cfg, s) && Unmoved(cfg, rows, calls, n, s, taken, left)
    requires Reaches(cfg, rows, calls, n, taken, left)
    ensures C.Continues(cfg, s, s') && !InputsCurrent(cfg, s'.rows)
    decreases |left|
  {
    if c: nat, k: nat :| GetsTo(cfg, rows, calls, n, taken, left, c, k) {
      s' := GetsThere(cfg, rows, calls, n, s, taken, left, c, k);
    } else {
      var c: nat, p: nat :| WinsAt(cfg, rows, calls, taken, left, c, p)
                            && Reaches(cfg, rows, calls, n, taken + {cfg.order[p]}, left - {c});
      var s1 := WinsFirst(cfg, rows, calls, n, s, taken, left, c, p);
      C.InvContinues(cfg, s, s1);
      s' := Relay(cfg, rows, calls, n, s1, taken + {cfg.order[p]}, left - {c});
      C.ContinuesTransitive(cfg, s, s1, s');
    }
  }

  // ---- Nobody reaches it ----

  /** The call still goes through the snapshot that it had, and has passed no work but what was taken. */
  ghost predicate Trails(cfg: Config, rows: Table, calls: seq<Pc>, pc: Pc, c: nat, taken: set<string>, left: set<nat>)
  {
    HoldsSnapshot(pc) ==>
      && c in left && c < |calls| && HoldsSnapshot(calls[c]) && calls[c].snap == pc.snap
      && From(calls[c]) <= From(pc) && Free(cfg, rows, calls[c], taken, From(pc))
  }

  /** What the call can claim at step k is current, unless it takes the output of n. */
  predicate CurrentElse(cfg: Config, rows: Table, pc: Pc, n: string, k: nat)
  {
    !Takes(cfg, rows, pc, n, k) ==> StillCurrent(cfg, rows, pc, k)
  }

  ghost predicate AllCurrentElse(cfg: Config, rows: Table, pc: Pc, n: string)
  {
    forall k: nat :: CurrentElse(cfg, rows, pc, n, k)
  }

  ghost predicate CallMisses(cfg: Config, rows: Table, calls: seq<Pc>, n: string, s: State, taken: set<string>,
                             left: set<nat>, c: nat)
  {
    c < |s.calls| ==>
      Trails(cfg, rows, calls, s.calls[c], c, taken, left) && AllCurrentElse(cfg, s.rows, s.calls[c], n)
  }

  /** No relay has reached a step that takes the output of n, and none will. */
  ghost predicate OutOfReach(cfg: Config, rows: Table, calls: seq<Pc>, n: string, s: State, taken: set<string>,
                             left: set<nat>)
  {
    && AnyFailed(s.rows) && InputsCurrent(cfg, s.rows) && !Reaches(cfg, rows, calls, n, taken, left)
    && RowsStand(cfg, rows, n, s.rows, taken)
    && forall c: nat :: CallMisses(cfg, rows, calls, n, s, taken, left, c)
  }

  /** Once a step has failed, a call goes on with the snapshot it has, one step at a time. */
  lemma SameSnapshot(cfg: Config, s: State, pc: Pc, a: Action)
    requires cfg.Valid() && AnyFailed(s.rows) && Fires(cfg, s, pc, a) && HoldsSnapshot(a.pc)
    ensures HoldsSnapshot(pc) && a.pc.snap == pc.snap
    ensures From(a.pc) == if pc.Looping? then pc.j + 1 else From(pc)
    ensures pc.Looping? ==> pc.j < |cfg.order| && (a.Claim? <==> Claims(cfg, s, pc))
  {
  }

  lemma StaysCurrentElse(cfg: Config, s: State, pc: Pc, a: Action, n: string, rows': Table)
    requires cfg.Valid() && AnyFailed(s.rows) && PcOk(cfg, s.rows, pc) && AllCurrentElse(cfg, s.rows, pc, n)
    requires Fires(cfg, s, pc, a) && RowsKept(s.rows, rows')
    ensures AllCurrentElse(cfg, rows', a.pc, n)
  {
    forall k: nat ensures CurrentElse(cfg, rows', a.pc, n, k) {
      if HoldsSnapshot(a.pc) {
        SameSnapshot(cfg, s, pc, a);
        assert CurrentElse(cfg, s.rows, pc, n, k);
        StaysStillCurrent(cfg, s.rows, rows', a.pc, k);
      }
    }
  }

  lemma KeepsCurrentElse(cfg: Config, rows: Table, rows': Table, pc: Pc, n: string)
    requires cfg.Valid() && PcOk(cfg, rows, pc) && AllCurrentElse(cfg, rows, pc, n) && RowsKept(rows, rows')
    ensures AllCurrentElse(cfg, rows', pc, n)
  {
    forall k: nat ensures CurrentElse(cfg, rows', pc, n, k) {
      assert CurrentElse(cfg, rows, pc, n, k);
      StaysStillCurrent(cfg, rows, rows', pc, k);
    }
  }

  /** A claim that takes the output of n would be one that a relay has reached. */
  lemma ClaimsNoTaker(cfg: Config, rows: Table, calls: seq<Pc>, n: string, s: State, taken: set<string>,
                      left: set<nat>, i: nat)
    requires cfg.Valid() && OutOfReach(cfg, rows, calls, n, s, taken, left) && i < |s.calls|
    requires s.calls[i].Looping? && s.calls[i].j < |cfg.order| && Claims(cfg, s, s.calls[i])
    ensures !Takes(cfg, s.rows, s.calls[i], n, s.calls[i].j) && cfg.order[s.calls[i].j] !in taken
    ensures !Activated(cfg.defs[cfg.order[s.calls[i].j]].trigger) ==>
              WinsAt(cfg, rows, calls, taken, left, i, s.calls[i].j)
  {
    var j := s.calls[i].j;
    assert CallMisses(cfg, rows, calls, n, s, taken, left, i) && RowStands(cfg, rows, n, s.rows, taken, cfg.order[j]);
    assert !GetsTo(cfg, rows, calls, n, taken, left, i, j);
  }

  /** The call still trails after an action that wins no work. */
  lemma TrailsOn(cfg: Config, rows: Table, calls: seq<Pc>, n: string, s: State, taken: set<string>, left: set<nat>,
                 i: nat, a: Action)
    requires cfg.Valid() && OutOfReach(cfg, rows, calls, n, s, taken, left) && i < |s.calls| && Fires(cfg, s, s.calls[i], a)
    requires a.Claim? ==> Activated(cfg.defs[a.n].trigger)
    ensures Trails(cfg, rows, calls, a.pc, i, taken, left)
  {
    if HoldsSnapshot(a.pc) {
      SameSnapshot(cfg, s, s.calls[i], a);
      assert CallMisses(cfg, rows, calls, n, s, taken, left, i);
      forall p: nat | p < From(a.pc) ensures !Blocks(cfg, rows, calls[i], taken, p) {
        if p < From(s.calls[i]) {
          assert !Blocks(cfg, rows, calls[i], taken, p);
        } else {
          assert RowStands(cfg, rows, n, s.rows, taken, cfg.order[p]);
        }
      }
    }
  }

  /** An action other than a claim makes no row pending, and no pending row otherwise. */
  lemma SamePending(cfg: Config, s: State, pc: Pc, a: Action)
    requires cfg.Valid() && AnyFailed(s.rows) && PcOk(cfg, s.rows, pc) && Fires(cfg, s, pc, a) && !a.Claim?
    ensures var rows' := NextRows(s, a);
            forall m :: (m in rows' && rows'[m].status.Pending?) <==> (m in s.rows && s.rows[m].status.Pending?)
  {
  }

  lemma RowsStandOn(cfg: Config, rows: Table, n: string, s: State, pc: Pc, a: Action, taken: set<string>)
    requires cfg.Valid() && AnyFailed(s.rows) && PcOk(cfg, s.rows, pc) && Fires(cfg, s, pc, a) && !a.Claim?
    requires RowsStand(cfg, rows, n, s.rows, taken)
    ensures RowsStand(cfg, rows, n, NextRows(s, a), taken)
  {
    SamePending(cfg, s, pc, a);
    forall m ensures RowStands(cfg, rows, n, NextRows(s, a), taken, m) {
      assert RowStands(cfg, rows, n, s.rows, taken, m);
    }
  }

  /** After a claim, which either was work, and counts as taken, or does not matter. */
  lemma RowsStandClaimed(cfg: Config, rows: Table, n: string, s: State, pc: Pc, a: Action, taken: set<string>)
    requires cfg.Valid() && Fires(cfg, s, pc, a) && a.Claim? && RowsStand(cfg, rows, n, s.rows, taken)
    requires !Takes(cfg, s.rows, pc, n, pc.j)
    ensures RowsStand(cfg, rows, n, NextRows(s, a), if Activated(cfg.defs[a.n].trigger) then taken else taken + {a.n})
  {
    var taken' := if Activated(cfg.defs[a.n].trigger) then taken else taken + {a.n};
    assert Claimable(cfg, s.rows, pc, pc.j);
    forall m ensures RowStands(cfg, rows, n, NextRows(s, a), taken', m) {
      assert RowStands(cfg, rows, n, s.rows, taken, m);
    }
  }

  /** A claim of what is current is harmless. */
  lemma NotHarmful(cfg: Config, s: State, i: nat, answer: HttpResult)
    requires cfg.Valid() && i < |s.calls| && PcOk(cfg, s.rows, s.calls[i]) && !Replaces(s, Act(i, answer))
    requires var pc := s.calls[i]; pc.Looping? && pc.j < |cfg.order| && Claims(cfg, s, pc) ==> StillCurrent(cfg, s.rows, pc, pc.j)
    ensures !Harmful(cfg, s, Act(i, answer))
  {
    var pc := s.calls[i];
    if pc.Looping? && pc.j < |cfg.order| && Claims(cfg, s, pc) {
      assert Claimable(cfg, s.rows, pc, pc.j);
      StaleReady(cfg, pc.snap, s.rows, cfg.order[pc.j]);
      InputDiffersIff(cfg.defs[cfg.order[pc.j]], pc.snap, s.rows);
    }
  }

  lemma OtherTrails(cfg: Config, rows: Table, calls: seq<Pc>, pc: Pc, c: nat, taken: set<string>, left: set<nat>,
                    m: string, i: nat)
    requires Trails(cfg, rows, calls, pc, c, taken, left) && c != i
    ensures Trails(cfg, rows, calls, pc, c, taken + {m}, left - {i})
  {
    if HoldsSnapshot(pc) {
      forall p: nat | p < From(pc) ensures !Blocks(cfg, rows, calls[c], taken + {m}, p) {
        assert !Blocks(cfg, rows, calls[c], taken, p);
      }
    }
  }

  /** What an action takes from the relay: the work it wins, and the call that has won it. */
  ghost predicate Leaves(cfg: Config, i: nat, a: Action, taken: set<string>, left: set<nat>, taken': set<string>,
                         left': set<nat>)
  {
    if a.Claim? && a.n in cfg.defs && !Activated(cfg.defs[a.n].trigger)
    then taken' == taken + {a.n} && left' == left - {i} else taken' == taken && left' == left
  }

  /** The call that acts ... */
  lemma ActorMisses(cfg: Config, rows: Table, calls: seq<Pc>, n: string, s: State, taken: set<string>,
                    left: set<nat>, i: nat, a: Action,
                    taken': set<string>, left': set<nat>)
    requires cfg.Valid() && OutOfReach(cfg, rows, calls, n, s, taken, left) && i < |s.calls| && PcOk(cfg, s.rows, s.calls[i])
    requires Fires(cfg, s, s.calls[i], a) && RowsKept(s.rows, NextRows(s, a)) && Leaves(cfg, i, a, taken, left, taken', left')
    ensures Trails(cfg, rows, calls, a.pc, i, taken', left') && AllCurrentElse(cfg, NextRows(s, a), a.pc, n)
  {
    assert CallMisses(cfg, rows, calls, n, s, taken, left, i);
    StaysCurrentElse(cfg, s, s.calls[i], a, n, NextRows(s, a));
    if a.Claim? && !Activated(cfg.defs[a.n].trigger) {
      assert !HoldsSnapshot(a.pc);
    } else {
      TrailsOn(cfg, rows, calls, n, s, taken, left, i, a);
    }
  }

  /** ... and the others. */
  lemma OtherMisses(cfg: Config, rows: Table, calls: seq<Pc>, n: string, s: State, taken: set<string>,
                    left: set<nat>, i: nat, a: Action,
                    taken': set<string>, left': set<nat>, c: nat)
    requires cfg.Valid() && OutOfReach(cfg, rows, calls, n, s, taken, left) && c < |s.calls| && c != i && PcOk(cfg, s.rows, s.calls[c])
    requires RowsKept(s.rows, NextRows(s, a)) && Leaves(cfg, i, a, taken, left, taken', left')
    ensures Trails(cfg, rows, calls, s.calls[c], c, taken', left') && AllCurrentElse(cfg, NextRows(s, a), s.calls[c], n)
  {
    assert CallMisses(cfg, rows, calls, n, s, taken, left, c);
    KeepsCurrentElse(cfg, s.rows, NextRows(s, a), s.calls[c], n);
    if taken' != taken || left' != left { OtherTrails(cfg, rows, calls, s.calls[c], c, taken, left, a.n, i); }
  }

  lemma CallsMiss(cfg: Config, rows: Table, calls: seq<Pc>, n: string, s: State, taken: set<string>,
                  left: set<nat>, i: nat, a: Action,
                    taken': set<string>, left': set<nat>)
    requires cfg.Valid() && Inv(cfg, s) && OutOfReach(cfg, rows, calls, n, s, taken, left)
    requires i < |s.calls| && Fires(cfg, s, s.calls[i], a) && RowsKept(s.rows, NextRows(s, a))
    requires Leaves(cfg, i, a, taken, left, taken', left')
    ensures forall c: nat :: CallMisses(cfg, rows, calls, n, Perform(s, i, a), taken', left', c)
  {
    forall c: nat ensures CallMisses(cfg, rows, calls, n, Perform(s, i, a), taken', left', c) {
      if c < |s.calls| {
        assert PcOk(cfg, s.rows, s.calls[c]);
        if c == i {
          ActorMisses(cfg, rows, calls, n, s, taken, left, i, a, taken', left');
        } else {
          OtherMisses(cfg, rows, calls, n, s, taken, left, i, a, taken', left', c);
        }
      }
    }
  }

  lemma ActsOutOfReach(cfg: Config, rows: Table, calls: seq<Pc>, n: string, s: State, taken: set<string>,
                       left: set<nat>, i: nat, answer: HttpResult)
    returns (taken': set<string>, left': set<nat>)
    requires cfg.Valid() && Inv(cfg, s) && OutOfReach(cfg, rows, calls, n, s, taken, left) && i < |s.calls|
    requires !Replaces(s, Act(i, answer))
    ensures OutOfReach(cfg, rows, calls, n, Apply(cfg, s, Act(i, answer)), taken', left')
  {
    var pc, a := s.calls[i], Next(cfg, s, s.calls[i], answer);
    NextFires(cfg, s, pc, answer);
    assert PcOk(cfg, s.rows, pc) && CallMisses(cfg, rows, calls, n, s, taken, left, i);
    taken', left' := taken, left;
    if a.Claim? {
      ClaimsNoTaker(cfg, rows, calls, n, s, taken, left, i);
      assert CurrentElse(cfg, s.rows, pc, n, pc.j);
      RowsStandClaimed(cfg, rows, n, s, pc, a, taken);
      if !Activated(cfg.defs[a.n].trigger) { taken', left' := taken + {a.n}, left - {i}; }
    } else {
      RowsStandOn(cfg, rows, n, s, pc, a, taken);
    }
    NotHarmful(cfg, s, i, answer);
    HarmExact(cfg, s, Act(i, answer));
    FailedStays(cfg, s, pc, a);
    ActionKeepsRows(cfg, s, pc, a);
    CallsMiss(cfg, rows, calls, n, s, taken, left, i, a, taken', left');
  }

  lemma StaysOutOfReach(cfg: Config, rows: Table, calls: seq<Pc>, n: string, s: State, taken: set<string>,
                        left: set<nat>, l: Label)
    returns (taken': set<string>, left': set<nat>)
    requires cfg.Valid() && Inv(cfg, s) && OutOfReach(cfg, rows, calls, n, s, taken, left) && !Replaces(s, l)
    ensures OutOfReach(cfg, rows, calls, n, Apply(cfg, s, l), taken', left')
  {
    if l.Act? && l.i < |s.calls| {
      taken', left' := ActsOutOfReach(cfg, rows, calls, n, s, taken, left, l.i, l.answer);
    } else {
      var s' := Apply(cfg, s, l);
      taken', left' := taken, left;
      forall c: nat ensures CallMisses(cfg, rows, calls, n, s', taken, left, c) {
        assert CallMisses(cfg, rows, calls, n, s, taken, left, c);
      }
    }
  }

  lemma {:induction false} RunsOutOfReach(cfg: Config, rows: Table, calls: seq<Pc>, n: string, s: State, ls: seq<Label>)
    returns (taken: set<string>, left: set<nat>)
    requires cfg.Valid() && Inv(cfg, s) && OutOfReach(cfg, rows, calls, n, s, {}, Below(|calls|)) && NothingOverwritten(cfg, s, ls)
    ensures OutOfReach(cfg, rows, calls, n, Exec(cfg, s, ls), taken, left) && Inv(cfg, Exec(cfg, s, ls))
  {
    if ls == [] {
      taken, left := {}, Below(|calls|);
    } else {
      taken, left := RunsOutOfReach(cfg, rows, calls, n, s, ls[..|ls| - 1]);
      KeepsApply(cfg, Exec(cfg, s, ls[..|ls| - 1]), ls[|ls| - 1]);
      taken, left := StaysOutOfReach(cfg, rows, calls, n, Exec(cfg, s, ls[..|ls| - 1]), taken, left, ls[|ls| - 1]);
    }
  }

  // ---- Exactly which write is harmless for good ----

  /** From s on, whatever happens, inputs stay current unless an output is overwritten. */
  ghost predicate CurrentForGood(cfg: Config, s: State)
    requires cfg.Valid()
  {
    forall s' :: C.Continues(cfg, s, s') ==> InputsCurrent(cfg, s'.rows)
  }

  lemma SoundForGood(cfg: Config, s: State)
    requires cfg.Valid() && Inv(cfg, s) && Sound(cfg, s)
    ensures CurrentForGood(cfg, s)
  {
    forall s' | C.Continues(cfg, s, s') ensures InputsCurrent(cfg, s'.rows) {
      var ls :| C.By(cfg, s, ls, s');
      assert C.ByAll(cfg, s, ls, |ls|, s');
      StaysSound(cfg, s, ls);
    }
  }

  /** The rows after the write. */
  lemma Overwritten(cfg: Config, s: State, i: nat) returns (s': State, r: Row)
    requires cfg.Valid() && Inv(cfg, s) && i < |s.calls| && s.calls[i].Completing?
    ensures var n, out := s.calls[i].n, s.calls[i].out;
            && s' == Apply(cfg, s, Act(i, NO_ANSWER)) && Inv(cfg, s')
            && n in s.rows && n in cfg.defs && s'.rows == s.rows[n := r] && r.status.Completed? && r.output == out
            && s'.calls == s.calls[i := Publishing(n, out)]
  {
    assert PcOk(cfg, s.rows, s.calls[i]);
    KeepsApply(cfg, s, Act(i, NO_ANSWER));
    s' := Apply(cfg, s, Act(i, NO_ANSWER));
    r := s'.rows[s.calls[i].n];
  }

  /** If nobody has taken or can still take the old output, the write leaves every input sound. */
  lemma SoundAfterWrite(cfg: Config, s: State, i: nat)
    requires cfg.Valid() && Inv(cfg, s) && Sound(cfg, s) && i < |s.calls| && s.calls[i].Completing?
    requires !Consumed(cfg, s.rows, s.calls[i].n) && !Held(cfg, s, s.calls[i].n)
    requires s.calls[i].n in s.rows && s.rows[s.calls[i].n].status.Completed?
    ensures Sound(cfg, Apply(cfg, s, Act(i, NO_ANSWER)))
  {
    var s', r := Overwritten(cfg, s, i);
    var n := s.calls[i].n;
    OverlapExact(cfg, s, i, NO_ANSWER);
    forall c, k: nat | 0 <= c < |s'.calls| ensures StillCurrent(cfg, s'.rows, s'.calls[c], k) {
      if Claimable(cfg, s'.rows, s'.calls[c], k) {
        assert s'.calls[c] == s.calls[c] && Claimable(cfg, s.rows, s.calls[c], k);
        assert StillCurrent(cfg, s.rows, s.calls[c], k) && !Takes(cfg, s.rows, s.calls[c], n, k);
        OverwriteKeeps(cfg, s.rows, n, r, cfg.order[k]);
      }
    }
  }

  lemma CurrentElseAfterWrite(cfg: Config, rows: Table, n: string, r: Row, pc: Pc)
    requires cfg.Valid() && SnapshotSound(cfg, rows, pc)
    requires n in rows && rows[n].status.Completed? && r.status.Completed?
    ensures AllCurrentElse(cfg, rows[n := r], pc, n)
  {
    var rows' := rows[n := r];
    forall k: nat ensures CurrentElse(cfg, rows', pc, n, k) {
      assert StillCurrent(cfg, rows, pc, k);
      if Claimable(cfg, rows', pc, k) && !Takes(cfg, rows', pc, n, k) {
        OverwriteKeeps(cfg, rows, n, r, cfg.order[k]);
      }
    }
  }

  lemma CallsAfterWrite(cfg: Config, s: State, i: nat, s1: State, r: Row)
    requires cfg.Valid() && Sound(cfg, s) && Replaces(s, Act(i, NO_ANSWER)) && r.status.Completed?
    requires s1.rows == s.rows[s.calls[i].n := r] && s1.calls == s.calls[i := Publishing(s.calls[i].n, s.calls[i].out)]
    ensures forall c: nat :: CallMisses(cfg, s.rows, s.calls, s.calls[i].n, s1, {}, Below(|s.calls|), c)
  {
    forall c: nat ensures CallMisses(cfg, s.rows, s.calls, s.calls[i].n, s1, {}, Below(|s.calls|), c) {
      if c < |s.calls| && c != i {
        assert SnapshotSound(cfg, s.rows, s.calls[c]);
        CurrentElseAfterWrite(cfg, s.rows, s.calls[i].n, r, s.calls[c]);
      }
    }
  }

  lemma RowsAfterWrite(cfg: Config, rows: Table, n: string, r: Row)
    requires n in rows && rows[n].status.Completed? && r.status.Completed?
    ensures RowsStand(cfg, rows, n, rows[n := r], {}) && (AnyFailed(rows) <==> AnyFailed(rows[n := r]))
  {
    var rows' := rows[n := r];
    if m :| m in rows && rows[m].status.Failed? { assert m in rows' && rows'[m].status.Failed?; }
    if m :| m in rows' && rows'[m].status.Failed? { assert m in rows && rows[m].status.Failed?; }
  }

  /** If no relay can reach a step that takes the old output, none does after the write. */
  lemma OutOfReachAfterWrite(cfg: Config, s: State, i: nat) returns (s1: State)
    requires cfg.Valid() && Inv(cfg, s) && Sound(cfg, s) && Replaces(s, Act(i, NO_ANSWER)) && AnyFailed(s.rows)
    requires !Consumed(cfg, s.rows, s.calls[i].n) && !Usable(cfg, s, s.calls[i].n)
    ensures s1 == Apply(cfg, s, Act(i, NO_ANSWER)) && Inv(cfg, s1)
    ensures OutOfReach(cfg, s.rows, s.calls, s.calls[i].n, s1, {}, Below(|s.calls|))
  {
    var r;
    s1, r := Overwritten(cfg, s, i);
    OverlapExact(cfg, s, i, NO_ANSWER);
    RowsAfterWrite(cfg, s.rows, s.calls[i].n, r);
    CallsAfterWrite(cfg, s, i, s1, r);
  }

  lemma HarmlessWrite(cfg: Config, s: State, i: nat)
    requires cfg.Valid() && Inv(cfg, s) && Sound(cfg, s) && Replaces(s, Act(i, NO_ANSWER))
    requires !Consumed(cfg, s.rows, s.calls[i].n) && !Usable(cfg, s, s.calls[i].n)
    ensures CurrentForGood(cfg, Apply(cfg, s, Act(i, NO_ANSWER)))
  {
    if AnyFailed(s.rows) {
      var s1 := OutOfReachAfterWrite(cfg, s, i);
      forall s' | C.Continues(cfg, s1, s') ensures InputsCurrent(cfg, s'.rows) {
        var ls :| C.By(cfg, s1, ls, s');
        assert C.ByAll(cfg, s1, ls, |ls|, s');
        var taken, left := RunsOutOfReach(cfg, s.rows, s.calls, s.calls[i].n, s1, ls);
      }
    } else {
      var s1, r := Overwritten(cfg, s, i);
      SoundAfterWrite(cfg, s, i);
      SoundForGood(cfg, s1);
    }
  }

  /** What a call can claim with the old output differs from what the rows give it now. */
  lemma TakersDiffer(cfg: Config, rows: Table, n: string, r: Row, pc: Pc, k: nat)
    requires cfg.Valid() && SnapshotSound(cfg, rows, pc) && Takes(cfg, rows, pc, n, k)
    requires n in rows && rows[n].status.Completed? && r.status.Completed? && r.output != rows[n].output
    ensures Differs(cfg, pc, rows[n := r], k) && Claimable(cfg, rows[n := r], pc, k)
  {
    assert StillCurrent(cfg, rows, pc, k);
    OverwriteBreaks(cfg, rows, n, r, cfg.order[k]);
  }

  lemma UnmovedAfterWrite(cfg: Config, s: State, i: nat, s1: State, r: Row)
    requires cfg.Valid() && Sound(cfg, s) && Replaces(s, Act(i, NO_ANSWER))
    requires r.status.Completed? && r.output == s.calls[i].out
    requires s1.rows == s.rows[s.calls[i].n := r] && s1.calls == s.calls[i := Publishing(s.calls[i].n, s.calls[i].out)]
    ensures Unmoved(cfg, s.rows, s.calls, s.calls[i].n, s1, {}, Below(|s.calls|))
  {
    var n := s.calls[i].n;
    RowsAfterWrite(cfg, s.rows, n, r);
    forall c: nat ensures CallStands(cfg, s.rows, s.calls, n, s1, Below(|s.calls|), c) {
      if c < |s.calls| && HoldsSnapshot(s.calls[c]) {
        assert SnapshotSound(cfg, s.rows, s.calls[c]) && s1.calls[c] == s.calls[c];
        forall k: nat | Takes(cfg, s.rows, s.calls[c], n, k) ensures Differs(cfg, s.calls[c], s1.rows, k) {
          TakersDiffer(cfg, s.rows, n, r, s.calls[c], k);
        }
      }
    }
  }

  /** While no step has failed, the call that has written can do all the work before. */
  lemma UsedAfterListing(cfg: Config, s: State, c: nat, k: nat, w: nat) returns (s': State)
    requires cfg.Valid() && Inv(cfg, s) && c < |s.calls| && !StillCurrent(cfg, s.rows, s.calls[c], k)
    requires w < |s.calls| && s.calls[w].Publishing? && !AnyFailed(s.rows)
    ensures C.Continues(cfg, s, s') && !InputsCurrent(cfg, s'.rows)
  {
    var s1 := C.PublishesOutput(cfg, s, w);
    C.InvContinues(cfg, s, s1);
    assert s1.calls[c] == s.calls[c];
    s' := C.UsedLater(cfg, s1, c, k, w);
    C.ContinuesTransitive(cfg, s, s1, s');
  }

  lemma HeldIsUsed(cfg: Config, s: State, i: nat, s1: State, r: Row, c: nat, k: nat) returns (s': State)
    requires cfg.Valid() && Sound(cfg, s) && Replaces(s, Act(i, NO_ANSWER)) && !AnyFailed(s.rows) && Inv(cfg, s1)
    requires r.status.Completed? && r.output == s.calls[i].out
    requires s1.rows == s.rows[s.calls[i].n := r] && s1.calls == s.calls[i := Publishing(s.calls[i].n, s.calls[i].out)]
    requires c < |s.calls| && Takes(cfg, s.rows, s.calls[c], s.calls[i].n, k)
    ensures C.Continues(cfg, s1, s') && !InputsCurrent(cfg, s'.rows)
  {
    assert SnapshotSound(cfg, s.rows, s.calls[c]) && s1.calls[c] == s.calls[c];
    TakersDiffer(cfg, s.rows, s.calls[i].n, r, s.calls[c], k);
    RowsAfterWrite(cfg, s.rows, s.calls[i].n, r);
    s' := UsedAfterListing(cfg, s1, c, k, i);
  }

  lemma HarmfulWrite(cfg: Config, s: State, i: nat) returns (s': State)
    requires cfg.Valid() && Inv(cfg, s) && Sound(cfg, s) && Replaces(s, Act(i, NO_ANSWER))
    requires Consumed(cfg, s.rows, s.calls[i].n) || Usable(cfg, s, s.calls[i].n)
    ensures C.Continues(cfg, Apply(cfg, s, Act(i, NO_ANSWER)), s') && !InputsCurrent(cfg, s'.rows)
  {
    var s1, r := Overwritten(cfg, s, i);
    if Consumed(cfg, s.rows, s.calls[i].n) {
      OverlapExact(cfg, s, i, NO_ANSWER);
      C.ContinuesNowhere(cfg, s1);
      s' := s1;
    } else if AnyFailed(s.rows) {
      UnmovedAfterWrite(cfg, s, i, s1, r);
      s' := Relay(cfg, s.rows, s.calls, s.calls[i].n, s1, {}, Below(|s.calls|));
    } else {
      var c: nat, k: nat :| c < |s.calls| && Takes(cfg, s.rows, s.calls[c], s.calls[i].n, k);
      s' := HeldIsUsed(cfg, s, i, s1, r, c, k);
    }
  }

  /** A trigger that is about to write leaves inputs current for good, over every continuation
      that overwrites nothing more, if and only if the step is not completed yet, or it brings
      the output that is there, or no step without a static input has taken that output and no
      call in flight can still use it from its snapshot. */
  lemma WriteExact(cfg: Config, s: State, i: nat)
    requires cfg.Valid() && Inv(cfg, s) && Sound(cfg, s) && i < |s.calls| && s.calls[i].Completing?
    ensures var n, out := s.calls[i].n, s.calls[i].out;
            && n in s.rows
            && (CurrentForGood(cfg, Apply(cfg, s, Act(i, NO_ANSWER))) <==>
                  || !s.rows[n].status.Completed? || s.rows[n].output == out
                  || (!Consumed(cfg, s.rows, n) && !Usable(cfg, s, n)))
  {
    var s1, r := Overwritten(cfg, s, i);
    if !Replaces(s, Act(i, NO_ANSWER)) {
      KeepsSound(cfg, s, Act(i, NO_ANSWER));
      SoundForGood(cfg, s1);
    } else if !Consumed(cfg, s.rows, s.calls[i].n) && !Usable(cfg, s, s.calls[i].n) {
      HarmlessWrite(cfg, s, i);
    } else {
      var s' := HarmfulWrite(cfg, s, i);
    }
  }

  lemma SoundAtFirst(cfg: Config)
    requires cfg.Valid()
    ensures Inv(cfg, Init()) && Sound(cfg, Init())
  {
    Always(cfg, []);
    assert Reached(cfg, []) == Init();
    forall k: nat ensures StillCurrent(cfg, Init().rows, Init().calls[0], k) {}
  }

  /** After any run that has overwritten nothing, crashes included, the first write that
      overwrites an output leaves inputs current for good exactly under that condition. */
  lemma FirstOverwriteExact(cfg: Config, before: seq<Label>, i: nat)
    requires cfg.Valid() && NothingOverwritten(cfg, Init(), before)
    requires var s := Reached(cfg, before);
             i < |s.calls| && s.calls[i].Completing?
    ensures var s := Reached(cfg, before); var n, out := s.calls[i].n, s.calls[i].out;
            && n in s.rows
            && (CurrentForGood(cfg, Apply(cfg, s, Act(i, NO_ANSWER))) <==>
                  || !s.rows[n].status.Completed? || s.rows[n].output == out
                  || (!Consumed(cfg, s.rows, n) && !Usable(cfg, s, n)))
  {
    SoundAtFirst(cfg);
    StaysSound(cfg, Init(), before);
    WriteExact(cfg, Reached(cfg, before), i);
  }
}
