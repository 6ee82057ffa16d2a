/** Cron triggers: registering them anew on every reload, and firing each only once although
    every node fires it. */
module Cron {
  import opened Types
  import opened Definition
  import opened Storage
  import opened Registries
  import opened Outcomes
  import opened Engines

  // ---- At most one start for each firing ----

  /** An attempt of some node to acquire a lock, at the time of the database. */
  datatype Attempt = Attempt(lock: CronLock, now: int, deleteFirst: bool)

  ghost function LocksAfter(locks: set<CronLock>, run: seq<Attempt>): set<CronLock>
  {
    if run == [] then locks
    else
      var a := run[|run| - 1];
      AfterAcquire(LocksAfter(locks, run[..|run| - 1]), a.lock, a.now, a.deleteFirst)
  }

  /** Attempt i of the run wins. */
  ghost predicate Wins(locks: set<CronLock>, run: seq<Attempt>, i: nat)
    requires i < |run|
  {
    Acquires(LocksAfter(locks, run[..i]), run[i].lock, run[i].now, run[i].deleteFirst)
  }

  ghost predicate ClockAdvances(run: seq<Attempt>)
  {
    forall i, j :: 0 <= i < j < |run| ==> run[i].now <= run[j].now
  }

  lemma LocksBefore(locks: set<CronLock>, run: seq<Attempt>, i: nat)
    requires i < |run|
    ensures LocksAfter(locks, run[..i + 1]) ==
            AfterAcquire(LocksAfter(locks, run[..i]), run[i].lock, run[i].now, run[i].deleteFirst)
  {
    assert run[..i + 1][..i] == run[..i] && run[..i + 1][i] == run[i];
  }

  /** A lock that nobody prunes stays. */
  lemma {:induction false} StaysLocked(locks: set<CronLock>, run: seq<Attempt>, l: CronLock, i: nat, j: nat)
    requires i <= j <= |run| && l in LocksAfter(locks, run[..i])
    requires forall k :: i <= k < j ==> !Prunes(run[k].lock, run[k].now, l)
    ensures l in LocksAfter(locks, run[..j])
    decreases j - i
  {
    if i < j {
      StaysLocked(locks, run, l, i, j - 1);
      LocksBefore(locks, run, j - 1);
    }
  }

  /** Among the attempts for one firing that are made within a day of the scheduled time at
      most one wins, whatever other attempts prune in between. */
  lemma AtMostOneStart(locks: set<CronLock>, run: seq<Attempt>, i: nat, j: nat)
    requires ClockAdvances(run) && i < j < |run| && run[i].lock == run[j].lock
    requires run[j].now <= run[j].lock.scheduledAt + 86_400
    ensures !Wins(locks, run, j)
  {
    var l := run[j].lock;
    LocksBefore(locks, run, i);
    assert !Prunes(l, run[i].now, l);
    StaysLocked(locks, run, l, i + 1, j);
    assert !Prunes(l, run[j].now, l);
  }

  /** A lock that was never asked for is not there. */
  lemma {:induction false} NotLocked(locks: set<CronLock>, run: seq<Attempt>, l: CronLock, i: nat)
    requires i <= |run| && l !in locks && forall k :: 0 <= k < i ==> run[k].lock != l
    ensures l !in LocksAfter(locks, run[..i])
    decreases i
  {
    if i > 0 {
      NotLocked(locks, run, l, i - 1);
      LocksBefore(locks, run, i - 1);
    } else {
      assert run[..0] == [];
    }
  }

  /** The first attempt for a firing wins. */
  lemma FirstStarts(locks: set<CronLock>, run: seq<Attempt>, i: nat)
    requires i < |run| && run[i].lock !in locks && forall k :: 0 <= k < i ==> run[k].lock != run[i].lock
    ensures Wins(locks, run, i)
  {
    NotLocked(locks, run, run[i].lock, i);
  }

  /** A lock that is not there stays away until an attempt for it wins. */
  lemma {:induction false} StaysAway(locks: set<CronLock>, run: seq<Attempt>, l: CronLock, i: nat, j: nat)
    requires i <= j <= |run| && l !in LocksAfter(locks, run[..i])
    requires forall k :: i <= k < j && run[k].lock == l ==> !Wins(locks, run, k)
    ensures l !in LocksAfter(locks, run[..j])
    decreases j - i
  {
    if i < j {
      StaysAway(locks, run, l, i, j - 1);
      LocksBefore(locks, run, j - 1);
    }
  }

  /** The lock of attempt i, the first for its firing, has been pruned by attempt k before
      attempt j, or attempt j prunes it itself before it inserts. */
  ghost predicate LosesLock(run: seq<Attempt>, i: nat, j: nat)
    requires i < j < |run|
  {
    var l := run[i].lock;
    || (exists k :: i < k < j && run[k].lock.workflow == l.workflow && run[k].lock.index == l.index
                    && run[k].now > l.scheduledAt + 86_400)
    || (run[j].deleteFirst && run[j].now > l.scheduledAt + 86_400)
  }

  lemma WinsAgain(locks: set<CronLock>, run: seq<Attempt>, i: nat, j: nat)
    requires i < j < |run| && run[i].lock == run[j].lock && run[i].lock !in locks
    requires forall k :: 0 <= k < i ==> run[k].lock != run[i].lock
    requires Wins(locks, run, j)
    ensures LosesLock(run, i, j)
  {
    var l := run[i].lock;
    FirstStarts(locks, run, i);
    LocksBefore(locks, run, i);
    if !LosesLock(run, i, j) {
      StaysLocked(locks, run, l, i + 1, j);
    }
  }

  lemma LostLockWins(locks: set<CronLock>, run: seq<Attempt>, i: nat, j: nat) returns (j': nat)
    requires i < j < |run| && run[i].lock == run[j].lock && LosesLock(run, i, j)
    ensures i < j' <= j && run[j'].lock == run[i].lock && Wins(locks, run, j')
  {
    var l := run[i].lock;
    j' := j;
    if !Wins(locks, run, j) {
      var k :| i < k < j && Prunes(run[k].lock, run[k].now, l);
      LocksBefore(locks, run, k);
      if run[k].lock == l && Wins(locks, run, k) {
        j' := k;
      } else if m :| k < m < j && run[m].lock == l && Wins(locks, run, m) {
        j' := m;
      } else {
        StaysAway(locks, run, l, k + 1, j);
      }
    }
  }

  /** Exactly when a firing starts its workflow more than once, over any run of attempts by any
      nodes: when its lock is pruned, by whatever attempt, late attempts for the same firing
      included, between the first attempt for it and some later one, or by that later one
      before it inserts. */
  lemma StartsAgainIff(locks: set<CronLock>, run: seq<Attempt>, i: nat)
    requires i < |run| && run[i].lock !in locks && forall k :: 0 <= k < i ==> run[k].lock != run[i].lock
    ensures Wins(locks, run, i)
    ensures (exists j :: i < j < |run| && run[j].lock == run[i].lock && Wins(locks, run, j)) <==>
            (exists j :: i < j < |run| && run[j].lock == run[i].lock && LosesLock(run, i, j))
  {
    FirstStarts(locks, run, i);
    if j :| i < j < |run| && run[j].lock == run[i].lock && Wins(locks, run, j) {
      WinsAgain(locks, run, i, j);
    }
    if j :| i < j < |run| && run[j].lock == run[i].lock && LosesLock(run, i, j) {
      var j' := LostLockWins(locks, run, i, j);
    }
  }

  /** Exactly when a lock that was there is still there, if it is not asked for in between:
      when nobody has pruned it. */
  lemma {:induction false} LockedIff(locks: set<CronLock>, run: seq<Attempt>, l: CronLock)
    requires l in locks && forall k :: 0 <= k < |run| ==> run[k].lock != l
    ensures l in LocksAfter(locks, run) <==> forall k :: 0 <= k < |run| ==> !Prunes(run[k].lock, run[k].now, l)
  {
    if run != [] { LockedIff(locks, run[..|run| - 1], l); }
  }

  /** So the next attempt for it wins if and only if it has been pruned in between, or is
      pruned by the attempt itself before the insertion. */
  lemma NextAttemptIff(locks: set<CronLock>, run: seq<Attempt>, a: Attempt)
    requires a.lock in locks && forall k :: 0 <= k < |run| ==> run[k].lock != a.lock
    ensures Wins(locks, run + [a], |run|) <==>
              || (exists k :: 0 <= k < |run| && run[k].lock.workflow == a.lock.workflow && run[k].lock.index == a.lock.index
                              && run[k].now > a.lock.scheduledAt + 86_400)
              || (a.deleteFirst && a.now > a.lock.scheduledAt + 86_400)
  {
    assert (run + [a])[..|run|] == run;
    LockedIff(locks, run, a.lock);
  }

  /** Late attempts can start a workflow twice: a firing that is attempted again more than a
      day later, after a newer firing of the same trigger has pruned its lock. */
  lemma LateAttemptStartsAgain(workflow: string)
    ensures var first, newer := CronLock(workflow, 0, 0), CronLock(workflow, 0, ONE_DAY + 1);
            var run := [Attempt(first, 0, false), Attempt(newer, ONE_DAY + 1, false), Attempt(first, ONE_DAY + 1, false)];
            ClockAdvances(run) && Wins({}, run, 0) && Wins({}, run, 2)
  {
    var first, newer := CronLock(workflow, 0, 0), CronLock(workflow, 0, ONE_DAY + 1);
    var run := [Attempt(first, 0, false), Attempt(newer, ONE_DAY + 1, false), Attempt(first, ONE_DAY + 1, false)];
    FirstStarts({}, run, 0);
    assert run[..0] == [];
    LocksBefore({}, run, 0);
    LocksBefore({}, run, 1);
  }

  /** No newer firing is needed: a late attempt that loses prunes its own lock. */
  lemma LoserPrunesOwnLock(workflow: string)
    ensures var l := CronLock(workflow, 0, 0);
            var run := [Attempt(l, 0, false), Attempt(l, ONE_DAY + 1, false), Attempt(l, ONE_DAY + 2, false)];
            ClockAdvances(run) && Wins({}, run, 0) && !Wins({}, run, 1) && Wins({}, run, 2)
  {
    var l := CronLock(workflow, 0, 0);
    var run := [Attempt(l, 0, false), Attempt(l, ONE_DAY + 1, false), Attempt(l, ONE_DAY + 2, false)];
    FirstStarts({}, run, 0);
    assert run[..0] == [];
    LocksBefore({}, run, 0);
    LocksBefore({}, run, 1);
  }

  // ---- Triggers do not interfere ----

  /** The locks of one cron trigger. */
  function LocksOf(locks: set<CronLock>, workflow: string, index: nat): set<CronLock>
  {
    set m | m in locks && m.workflow == workflow && m.index == index
  }

  /** The attempts for the firings of one cron trigger, in their order. */
  function Only(run: seq<Attempt>, workflow: string, index: nat): seq<Attempt>
  {
    if run == [] then []
    else
      var a := run[|run| - 1];
      var before := Only(run[..|run| - 1], workflow, index);
      if a.lock.workflow == workflow && a.lock.index == index then before + [a] else before
  }

  lemma OneAttempt(locks: set<CronLock>, a: Attempt, workflow: string, index: nat)
    ensures var own := LocksOf(locks, workflow, index);
            if a.lock.workflow == workflow && a.lock.index == index
            then && Acquires(locks, a.lock, a.now, a.deleteFirst) == Acquires(own, a.lock, a.now, a.deleteFirst)
                 && LocksOf(AfterAcquire(locks, a.lock, a.now, a.deleteFirst), workflow, index)
                    == AfterAcquire(own, a.lock, a.now, a.deleteFirst)
            else LocksOf(AfterAcquire(locks, a.lock, a.now, a.deleteFirst), workflow, index) == own
  {
  }

  /** The locks of a trigger are what the attempts for its own firings leave. */
  lemma {:induction false} OwnLocks(locks: set<CronLock>, run: seq<Attempt>, workflow: string, index: nat)
    ensures LocksOf(LocksAfter(locks, run), workflow, index)
         == LocksAfter(LocksOf(locks, workflow, index), Only(run, workflow, index))
  {
    if run != [] {
      var before, a := run[..|run| - 1], run[|run| - 1];
      OwnLocks(locks, before, workflow, index);
      OneAttempt(LocksAfter(locks, before), a, workflow, index);
      if a.lock.workflow == workflow && a.lock.index == index {
        var own := Only(run, workflow, index);
        assert own[..|own| - 1] == Only(before, workflow, index) && own[|own| - 1] == a;
      }
    }
  }

  lemma {:induction false} OnlyKeeps(run: seq<Attempt>, k: nat, workflow: string, index: nat)
    requires k < |run| && run[k].lock.workflow == workflow && run[k].lock.index == index
    ensures var own, pos := Only(run, workflow, index), |Only(run[..k], workflow, index)|;
            pos < |own| && own[pos] == run[k] && own[..pos] == Only(run[..k], workflow, index)
    decreases |run|
  {
    var before := run[..|run| - 1];
    if k < |before| {
      OnlyKeeps(before, k, workflow, index);
      assert before[..k] == run[..k];
    }
  }

  /** Whether an attempt wins, and which locks of its trigger are there afterwards, depends only
      on the attempts for the firings of the same trigger: without all the others the same
      attempts win. */
  lemma NonInterference(locks: set<CronLock>, run: seq<Attempt>, k: nat)
    requires k < |run|
    ensures var w, i := run[k].lock.workflow, run[k].lock.index;
            var own, pos := Only(run, w, i), |Only(run[..k], w, i)|;
            && pos < |own| && own[pos] == run[k]
            && (Wins(locks, run, k) <==> Wins(LocksOf(locks, w, i), own, pos))
            && LocksOf(LocksAfter(locks, run), w, i) == LocksAfter(LocksOf(locks, w, i), own)
  {
    var w, i := run[k].lock.workflow, run[k].lock.index;
    OnlyKeeps(run, k, w, i);
    OwnLocks(locks, run, w, i);
    OwnLocks(locks, run[..k], w, i);
    OneAttempt(LocksAfter(locks, run[..k]), run[k], w, i);
  }

  // ---- The keys of the registered jobs ----

  const DIGITS: seq<char> := ['0', '1', '2', '3', '4', '5', '6', '7', '8', '9']

  function Decimal(n: nat): (r: string)
    ensures r != "" && forall c :: c in r ==> '0' <= c <= '9'
    decreases n
  {
    if n < 10 then [DIGITS[n]] else Decimal(n / 10) + [DIGITS[n % 10]]
  }

  function Value(s: string): int
  {
    if s == "" then 0 else 10 * Value(s[..|s| - 1]) + (s[|s| - 1] as int - '0' as int)
  }

  lemma {:induction false} DecimalValue(n: nat)
    ensures Value(Decimal(n)) == n
    decreases n
  {
    if n < 10 {
      assert Decimal(n)[..0] == "";
    } else {
      DecimalValue(n / 10);
      assert Decimal(n)[..|Decimal(n)| - 1] == Decimal(n / 10);
    }
  }

  function Key(workflow: string, index: nat): string
  {
    workflow + ":" + Decimal(index)
  }

  /** No colon follows the one between the name and the index. */
  lemma LastColon(a: string, i: nat, t: nat)
    requires |a| < t < |Key(a, i)|
    ensures Key(a, i)[t] != ':'
  {
    var x := Decimal(i);
    assert Key(a, i)[t] == x[t - |a| - 1] && x[t - |a| - 1] in x;
  }

  /** A key tells the workflow and the index, even if the name contains colons. */
  lemma KeyInjective(a: string, i: nat, b: string, j: nat)
    requires Key(a, i) == Key(b, j)
    ensures a == b && i == j
  {
    assert Key(a, i)[|a|] == ':' && Key(b, j)[|b|] == ':';
    if |b| > |a| { LastColon(a, i, |b|); }
    if |a| > |b| { LastColon(b, j, |a|); }
    assert a == Key(a, i)[..|a|] && b == Key(b, j)[..|b|];
    assert Decimal(i) == Key(a, i)[|a| + 1..] && Decimal(j) == Key(b, j)[|b| + 1..];
    DecimalValue(i);
    DecimalValue(j);
  }

  // ---- Registering ----

  datatype Job = Job(workflow: string, index: nat, schedule: string, input: Json)

  /** The cron library: its entries have identifiers that are never used again. */
  class Schedule {
    var entries: map<nat, Job>
    var nextId: nat

    ghost predicate Valid()
      reads this
    {
      forall id :: id in entries ==> id < nextId
    }

    constructor ()
      ensures Valid() && entries == map[]
    {
      entries, nextId := map[], 1;
    }

    method Remove(id: nat)
      requires Valid()
      modifies this
      ensures Valid() && entries == old(entries) - {id} && nextId == old(nextId)
    {
      entries := entries - {id};
    }

    /** Fails if the schedule cannot be parsed. */
    method AddFunc(job: Job, p: Parsers) returns (r: Option<nat>)
      requires Valid()
      modifies this
      ensures Valid() && (r.Some? <==> p.schedule(job.schedule))
      ensures if r.Some? then r.value !in old(entries) && entries == old(entries)[r.value := job] else entries == old(entries)
    {
      if !p.schedule(job.schedule) { return None; }
      r := Some(nextId);
      entries := entries[nextId := job];
      nextId := nextId + 1;
    }
  }

  /** A cron trigger whose schedule parses and whose input can be encoded. */
  predicate Registers(t: TriggerSpec, p: Parsers, encodes: Json -> bool)
  {
    t.kind == "cron" && (t.input == Absent || encodes(t.input)) && p.schedule(t.schedule)
  }

  function JobOf(w: Workflow, i: nat): Job
    requires i < |w.triggers|
  {
    Job(w.name, i, w.triggers[i].schedule, w.triggers[i].input)
  }

  /** One job for each of the first k triggers that registers. */
  function JobsOf(w: Workflow, k: nat, p: Parsers, encodes: Json -> bool): set<Job>
    requires k <= |w.triggers|
  {
    set i | 0 <= i < k && Registers(w.triggers[i], p, encodes) :: JobOf(w, i)
  }

  function AllJobs(defs: seq<Workflow>, k: nat, p: Parsers, encodes: Json -> bool): set<Job>
    requires k <= |defs|
  {
    if k == 0 then {} else AllJobs(defs, k - 1, p, encodes) + JobsOf(defs[k - 1], |defs[k - 1].triggers|, p, encodes)
  }

  /** The live entries are exactly the values of `jobs`, one for each job and under its key. */
  ghost predicate Synced(entries: map<nat, Job>, jobs: map<string, nat>, wanted: set<Job>)
  {
    && (forall id :: id in entries ==> entries[id] in wanted)
    && (forall j :: j in wanted ==>
          var key := Key(j.workflow, j.index); key in jobs && jobs[key] in entries && entries[jobs[key]] == j)
    && (forall key :: key in jobs ==>
          jobs[key] in entries && Key(entries[jobs[key]].workflow, entries[jobs[key]].index) == key)
    && (forall id :: id in entries ==>
          Key(entries[id].workflow, entries[id].index) in jobs && jobs[Key(entries[id].workflow, entries[id].index)] == id)
  }

  /** The job is for a cron trigger of the workflow, has its schedule and its input, and can be
      registered. */
  predicate IsJobOf(j: Job, w: Workflow, p: Parsers, encodes: Json -> bool)
  {
    && j.workflow == w.name && j.index < |w.triggers|
    && var t := w.triggers[j.index];
       && t.kind == "cron" && (t.input == Absent || encodes(t.input)) && p.schedule(t.schedule)
       && j.schedule == t.schedule && j.input == t.input
  }

  /** The live entries are exactly the jobs of the definitions. */
  ghost predicate EntriesAre(entries: map<nat, Job>, defs: seq<Workflow>, p: Parsers, encodes: Json -> bool)
  {
    && (forall id :: id in entries ==> exists d :: 0 <= d < |defs| && IsJobOf(entries[id], defs[d], p, encodes))
    && (forall d, j :: 0 <= d < |defs| && IsJobOf(j, defs[d], p, encodes) ==> j in entries.Values)
  }

  lemma OneMoreJob(entries: map<nat, Job>, jobs: map<string, nat>, wanted: set<Job>, id: nat, j: Job)
    requires Synced(entries, jobs, wanted) && id !in entries
    requires forall k :: k in wanted ==> k.workflow != j.workflow || k.index != j.index
    ensures Synced(entries[id := j], jobs[Key(j.workflow, j.index) := id], wanted + {j})
  {
    var key := Key(j.workflow, j.index);
    if key in jobs {
      var k := entries[jobs[key]];
      KeyInjective(k.workflow, k.index, j.workflow, j.index);
      assert false;
    }
  }

  ghost predicate DistinctWorkflows(defs: seq<Workflow>)
  {
    forall i, j :: 0 <= i < j < |defs| ==> defs[i].name != defs[j].name
  }

  ghost predicate NoneOf(jobs: set<Job>, workflow: string)
  {
    forall j :: j in jobs ==> j.workflow != workflow
  }

  lemma NoneLeaked(entries: map<nat, Job>, jobs: map<string, nat>, wanted: set<Job>)
    requires Synced(entries, jobs, wanted)
    ensures forall id :: id in entries ==> id in jobs.Values
  {
  }

  lemma {:induction false} JobsFrom(defs: seq<Workflow>, d: nat, p: Parsers, encodes: Json -> bool, j: Job)
    returns (k: nat)
    requires d <= |defs| && j in AllJobs(defs, d, p, encodes)
    ensures k < d && j in JobsOf(defs[k], |defs[k].triggers|, p, encodes)
    decreases d
  {
    if j in AllJobs(defs, d - 1, p, encodes) {
      k := JobsFrom(defs, d - 1, p, encodes, j);
    } else {
      k := d - 1;
    }
  }

  lemma EarlierNames(defs: seq<Workflow>, d: nat, p: Parsers, encodes: Json -> bool)
    requires d < |defs| && DistinctWorkflows(defs)
    ensures NoneOf(AllJobs(defs, d, p, encodes), defs[d].name)
  {
    forall j | j in AllJobs(defs, d, p, encodes) ensures j.workflow != defs[d].name {
      var k := JobsFrom(defs, d, p, encodes, j);
    }
  }

  lemma OneMoreTrigger(w: Workflow, i: nat, p: Parsers, encodes: Json -> bool)
    requires i < |w.triggers|
    ensures JobsOf(w, i + 1, p, encodes) ==
            JobsOf(w, i, p, encodes) + (if Registers(w.triggers[i], p, encodes) then {JobOf(w, i)} else {})
    ensures forall j :: j in JobsOf(w, i, p, encodes) ==> j.index != i
  {
  }

  lemma TriggerAdded(entries: map<nat, Job>, jobs: map<string, nat>, before: set<Job>, w: Workflow, i: nat,
                     p: Parsers, encodes: Json -> bool, id: nat)
    requires i < |w.triggers| && Registers(w.triggers[i], p, encodes) && NoneOf(before, w.name) && id !in entries
    requires Synced(entries, jobs, before + JobsOf(w, i, p, encodes))
    ensures Synced(entries[id := JobOf(w, i)], jobs[Key(w.name, i) := id], before + JobsOf(w, i + 1, p, encodes))
  {
    var wanted := before + JobsOf(w, i, p, encodes);
    OneMoreTrigger(w, i, p, encodes);
    OneMoreJob(entries, jobs, wanted, id, JobOf(w, i));
    assert before + JobsOf(w, i + 1, p, encodes) == wanted + {JobOf(w, i)};
  }

  lemma JobsOfExactly(w: Workflow, p: Parsers, encodes: Json -> bool, j: Job)
    ensures j in JobsOf(w, |w.triggers|, p, encodes) <==> IsJobOf(j, w, p, encodes)
  {
    if IsJobOf(j, w, p, encodes) { assert Registers(w.triggers[j.index], p, encodes) && JobOf(w, j.index) == j; }
  }

  lemma {:induction false} AllJobsWanted(defs: seq<Workflow>, k: nat, p: Parsers, encodes: Json -> bool, j: Job)
    requires k <= |defs|
    ensures j in AllJobs(defs, k, p, encodes) <==> exists d :: 0 <= d < k && IsJobOf(j, defs[d], p, encodes)
    decreases k
  {
    if k > 0 {
      AllJobsWanted(defs, k - 1, p, encodes, j);
      JobsOfExactly(defs[k - 1], p, encodes, j);
    }
  }

  lemma JobsExactly(entries: map<nat, Job>, jobs: map<string, nat>, defs: seq<Workflow>, p: Parsers, encodes: Json -> bool)
    requires Synced(entries, jobs, AllJobs(defs, |defs|, p, encodes))
    ensures EntriesAre(entries, defs, p, encodes)
  {
    forall id | id in entries ensures exists d :: 0 <= d < |defs| && IsJobOf(entries[id], defs[d], p, encodes) {
      AllJobsWanted(defs, |defs|, p, encodes, entries[id]);
    }
    forall d, j | 0 <= d < |defs| && IsJobOf(j, defs[d], p, encodes) ensures j in entries.Values {
      AllJobsWanted(defs, |defs|, p, encodes, j);
    }
  }

  class CronScheduler {
    const c: Schedule
    const engine: Engine
    const parsers: Parsers
    const encodes: Json -> bool
    var jobs: map<string, nat>

    /** No entry is leaked: each is in `jobs`. */
    ghost predicate Valid()
      reads this, c
    {
      c.Valid() && forall id :: id in c.entries ==> id in jobs.Values
    }

    constructor (c: Schedule, engine: Engine, parsers: Parsers, encodes: Json -> bool)
      requires c.Valid() && c.entries == map[]
      ensures this.c == c && this.engine == engine && this.parsers == parsers && this.encodes == encodes
      ensures Valid() && Synced(c.entries, jobs, {})
    {
      this.c, this.engine, this.parsers, this.encodes, jobs := c, engine, parsers, encodes, map[];
    }

    method RemoveAll()
      requires Valid()
      modifies this`jobs, c
      ensures c.Valid() && c.entries == map[] && jobs == map[]
    {
      var ids := jobs.Values;
      while ids != {}
        invariant c.Valid() && forall id :: id in c.entries ==> id in ids
        decreases |ids|
      {
        var id :| id in ids;
        c.Remove(id);
        ids := ids - {id};
      }
      jobs := map[];
    }

    /** Registers the cron triggers of one definition; a trigger that cannot be registered is
        passed over. */
    method SyncDefinition(w: Workflow, ghost before: set<Job>)
      requires c.Valid() && Synced(c.entries, jobs, before) && NoneOf(before, w.name)
      modifies this`jobs, c
      ensures c.Valid() && Synced(c.entries, jobs, before + JobsOf(w, |w.triggers|, parsers, encodes))
    {
      var i := 0;
      assert before + JobsOf(w, 0, parsers, encodes) == before;
      while i < |w.triggers|
        invariant 0 <= i <= |w.triggers| && c.Valid()
        invariant Synced(c.entries, jobs, before + JobsOf(w, i, parsers, encodes))
      {
        var t := w.triggers[i];
        ghost var entries, was := c.entries, jobs;
        OneMoreTrigger(w, i, parsers, encodes);
        if t.kind == "cron" && (t.input == Absent || encodes(t.input)) {
          var id := c.AddFunc(JobOf(w, i), parsers);
          if id.Some? {
            jobs := jobs[Key(w.name, i) := id.value];
            TriggerAdded(entries, was, before, w, i, parsers, encodes, id.value);
          }
        }
        i := i + 1;
      }
    }

    /** Removes all jobs and registers those of the definitions, whose names are distinct. */
    method Sync(defs: seq<Workflow>)
      requires Valid() && DistinctWorkflows(defs)
      modifies this`jobs, c
      ensures Valid() && Synced(c.entries, jobs, AllJobs(defs, |defs|, parsers, encodes))
      ensures EntriesAre(c.entries, defs, parsers, encodes)
    {
      RemoveAll();
      var d := 0;
      while d < |defs|
        invariant 0 <= d <= |defs| && c.Valid()
        invariant Synced(c.entries, jobs, AllJobs(defs, d, parsers, encodes))
      {
        EarlierNames(defs, d, parsers, encodes);
        SyncDefinition(defs[d], AllJobs(defs, d, parsers, encodes));
        d := d + 1;
      }
      NoneLeaked(c.entries, jobs, AllJobs(defs, d, parsers, encodes));
      JobsExactly(c.entries, jobs, defs, parsers, encodes);
    }

    /** A job fires: the node that wins the lock starts an instance, if the workflow is loaded. */
    method Fire(job: Job, scheduledAt: int) returns (won: bool, started: Option<Started>)
      requires engine.Valid() && engine.registry.Valid()
      modifies engine`sent, engine`worlds, engine.repo
      ensures engine.Valid()
      ensures var l, was := CronLock(job.workflow, job.index, scheduledAt), old(engine.repo.cronLocks);
              && (won ==> l in engine.repo.cronLocks) && (l !in was ==> won)
              && (won ==> l !in was || engine.repo.clock > scheduledAt + 86_400)
      ensures started.Some? <==> won && job.workflow in engine.registry.definitions
      ensures started.None? ==> engine.Db() == old(engine.Db()).(now := engine.repo.clock)
      ensures started.Some? ==>
                && started.value.id !in old(engine.repo.instances)
                && started.value.inst == Instance(job.workflow, started.value.inst.status, job.input)
                && OthersKept(old(engine.Db()), engine.Db(), started.value.id)
                && started.value.id in engine.repo.steps
                && RunsDefinition(started.value.id, engine.registry.definitions[job.workflow].steps,
                                  engine.repo.steps[started.value.id], engine.sent, engine.poller)
    {
      ghost var db := engine.Db();
      ghost var first;
      won, first := engine.repo.TryAcquireCronLock(job.workflow, job.index, scheduledAt);
      LaterRests(db, engine.Db(), engine.worlds, engine.poller);
      if !won { return won, None; }
      started := engine.StartInstance(job.workflow, job.input);
    }
  }

  // ---- Reloading ----

  /** The jobs that the loaded definitions want. */
  ghost predicate WantedBy(j: Job, m: map<string, Workflow>, p: Parsers, encodes: Json -> bool)
  {
    j.workflow in m && IsJobOf(j, m[j.workflow], p, encodes)
  }

  /** The live entries are exactly the values of `jobs`, one for each cron trigger of the
      current definitions that can be registered. */
  ghost predicate UpToDate(entries: map<nat, Job>, jobs: map<string, nat>, m: map<string, Workflow>, p: Parsers,
                           encodes: Json -> bool)
  {
    exists wanted :: Synced(entries, jobs, wanted) && forall j :: j in wanted <==> WantedBy(j, m, p, encodes)
  }

  lemma {:induction false} EnumeratedWanted(defs: seq<Workflow>, m: map<string, Workflow>, p: Parsers, encodes: Json -> bool, j: Job)
    requires Enumerates(defs, m)
    ensures j in AllJobs(defs, |defs|, p, encodes) <==> WantedBy(j, m, p, encodes)
  {
    AllJobsWanted(defs, |defs|, p, encodes, j);
    if WantedBy(j, m, p, encodes) {
      var d :| 0 <= d < |defs| && defs[d].name == j.workflow;
      assert IsJobOf(j, defs[d], p, encodes);
    }
  }

  lemma NowUpToDate(entries: map<nat, Job>, jobs: map<string, nat>, defs: seq<Workflow>, m: map<string, Workflow>,
                    p: Parsers, encodes: Json -> bool)
    requires Enumerates(defs, m) && Synced(entries, jobs, AllJobs(defs, |defs|, p, encodes))
    ensures UpToDate(entries, jobs, m, p, encodes)
  {
    forall j ensures j in AllJobs(defs, |defs|, p, encodes) <==> WantedBy(j, m, p, encodes) {
      EnumeratedWanted(defs, m, p, encodes, j);
    }
  }

  /** A reload of the registry with the scheduler as its hook. Whether it succeeds or not, the
      scheduler is up to date with the definitions afterwards if it was before. */
  method Reload(r: Registry, s: CronScheduler, files: seq<File>) returns (ok: bool)
    requires r.Valid() && s.Valid() && r.hooks != []
    requires UpToDate(s.c.entries, s.jobs, r.definitions, s.parsers, s.encodes)
    modifies r`definitions, r`calls, s`jobs, s.c
    ensures r.Valid() && s.Valid()
    ensures UpToDate(s.c.entries, s.jobs, r.definitions, s.parsers, s.encodes)
    ensures !ok ==> r.definitions == old(r.definitions) && s.jobs == old(s.jobs) && s.c.entries == old(s.c.entries)
    ensures ok <==> AllFollowRules(files, r.parsers)
    ensures ok ==> LoadedFrom(r.definitions, files, |files|, r.parsers)
  {
    ghost var before := r.calls;
    ok := r.Load(files);
    if !ok { return; }
    ghost var defs :| Enumerates(defs, r.definitions) && r.calls == before + CallsOf(r.hooks, defs);
    var delivered := r.calls[|r.calls| - 1].defs;
    assert r.calls[|r.calls| - 1] == CallsOf(r.hooks, defs)[|r.hooks| - 1];
    assert delivered == defs;
    s.Sync(delivered);
    NowUpToDate(s.c.entries, s.jobs, defs, r.definitions, s.parsers, s.encodes);
  }
}
