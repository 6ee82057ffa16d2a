/** The database tables, changed in place by one SQL statement at a time. */
module Storage {
  import opened Types

  /** A step of a definition, as CreateSteps receives it. */
  datatype NewStep = NewStep(name: string, def: StepDef)

  /** A step row, as ListSteps and GetStep return it. */
  datatype StepExecution = StepExecution(name: string, def: StepDef, row: Row)

  datatype Instance = Instance(workflow: string, status: InstanceStatus, input: Json)

  /** The step rows of one instance. `order` lists their names by `step_order`. */
  datatype Steps = Steps(order: seq<string>, defs: map<string, StepDef>, rows: Table)
  {
    /** Every listed step has its columns, and no other step has. */
    ghost predicate Columns()
    {
      (forall n :: n in order <==> n in defs) && rows.Keys == defs.Keys
    }

    /** No step is listed twice. */
    ghost predicate Distinct()
    {
      forall i :: 0 <= i < |order| ==> order[i] !in order[..i]
    }

    ghost predicate Valid()
    {
      Columns() && Distinct()
    }
  }

  /** A row of the table that keeps cron firings from being started twice. Times are in seconds. */
  datatype CronLock = CronLock(workflow: string, index: nat, scheduledAt: int)

  const ONE_DAY := 86_400

  /** The statement's DELETE removes this row at time `now`, on behalf of a firing of lock l. */
  predicate Prunes(l: CronLock, now: int, m: CronLock)
  {
    m.workflow == l.workflow && m.index == l.index && m.scheduledAt < now - ONE_DAY
  }

  /** The locks that the DELETE leaves. */
  function Pruned(locks: set<CronLock>, l: CronLock, now: int): set<CronLock>
  {
    set m | m in locks && !Prunes(l, now, m)
  }

  /** One statement deletes old locks and inserts the new one unless it is there. Within a
      statement the order of the two is not specified. */
  predicate Acquires(locks: set<CronLock>, l: CronLock, now: int, deleteFirst: bool)
  {
    l !in (if deleteFirst then Pruned(locks, l, now) else locks)
  }

  function AfterAcquire(locks: set<CronLock>, l: CronLock, now: int, deleteFirst: bool): set<CronLock>
  {
    Pruned(locks, l, now) + (if Acquires(locks, l, now, deleteFirst) then {l} else {})
  }

  const NO_STEPS := Steps([], map[], map[])

  /** The table after inserting this step behind the others. */
  function Inserted(st: Steps, s: NewStep): Steps
  {
    Steps(st.order + [s.name], st.defs[s.name := s.def], st.rows[s.name := FreshRow()])
  }

  /** The table after inserting the first k steps. */
  function AllInserted(steps: seq<NewStep>, k: nat): Steps
    requires k <= |steps|
  {
    if k == 0 then NO_STEPS else Inserted(AllInserted(steps, k - 1), steps[k - 1])
  }

  /** The first k names are distinct. */
  predicate DistinctNames(steps: seq<NewStep>, k: nat)
    requires k <= |steps|
  {
    forall i, j :: 0 <= i < j < k ==> steps[i].name != steps[j].name
  }

  predicate FilledStep(st: Steps, s: NewStep, i: nat)
  {
    i < |st.order| && st.order[i] == s.name && s.name in st.defs && st.defs[s.name] == s.def
  }

  /** The table holds the first k steps in their order, with their constant columns, and
      every row is as CreateSteps writes it. */
  ghost predicate Filled(st: Steps, steps: seq<NewStep>, k: nat)
  {
    && st.Columns() && k == |st.order| <= |steps|
    && (forall i :: 0 <= i < k ==> FilledStep(st, steps[i], i))
    && (forall n :: n in st.rows ==> st.rows[n] == Row(Pending, Absent, Absent, "", None, None))
  }

  lemma InsertedColumns(st: Steps, s: NewStep)
    requires st.Columns() && s.name !in st.order
    ensures Inserted(st, s).Columns()
  {
    var st' := Inserted(st, s);
    forall n ensures n in st'.order <==> n in st'.defs {
      assert n in st'.order <==> n in st.order || n == s.name;
    }
  }

  lemma InsertedFills(st: Steps, steps: seq<NewStep>, k: nat)
    requires Filled(st, steps, k) && k < |steps| && steps[k].name !in st.order
    ensures Filled(Inserted(st, steps[k]), steps, k + 1)
  {
    InsertedColumns(st, steps[k]);
    forall i | 0 <= i < k ensures FilledStep(Inserted(st, steps[k]), steps[i], i) {
      assert FilledStep(st, steps[i], i) && st.order[i] in st.order;
    }
  }

  lemma {:induction false} AllInsertedFills(steps: seq<NewStep>, k: nat)
    requires k <= |steps| && DistinctNames(steps, k)
    ensures Filled(AllInserted(steps, k), steps, k)
    decreases k
  {
    if k > 0 {
      AllInsertedFills(steps, k - 1);
      var st := AllInserted(steps, k - 1);
      forall i | 0 <= i < |st.order| ensures st.order[i] != steps[k - 1].name {
        assert FilledStep(st, steps[i], i);
      }
      InsertedFills(st, steps, k - 1);
    }
  }

  lemma AllInsertedDistinct(steps: seq<NewStep>, k: nat)
    requires k <= |steps| && DistinctNames(steps, k)
    ensures AllInserted(steps, k).Distinct()
  {
    AllInsertedFills(steps, k);
    var st := AllInserted(steps, k);
    forall i | 0 <= i < |st.order| ensures st.order[i] !in st.order[..i] {
      assert FilledStep(st, steps[i], i);
      forall j | 0 <= j < i ensures st.order[j] != st.order[i] { assert FilledStep(st, steps[j], j); }
    }
  }

  /** Inserting step k meets the unique key exactly when its name was inserted before. */
  lemma InsertNext(steps: seq<NewStep>, k: nat)
    requires k < |steps| && DistinctNames(steps, k)
    ensures DistinctNames(steps, k + 1) <==> steps[k].name !in AllInserted(steps, k).rows
  {
    AllInsertedFills(steps, k);
    var st := AllInserted(steps, k);
    if steps[k].name in st.order {
      var j :| 0 <= j < k && st.order[j] == steps[k].name;
      assert steps[j].name == steps[k].name;
    } else {
      assert forall j :: 0 <= j < k ==> steps[j].name == st.order[j];
    }
  }

  ghost predicate AllValid(steps: map<nat, Steps>)
  {
    forall id :: id in steps ==> steps[id].Valid()
  }

  lemma ReplacedValid(steps: map<nat, Steps>, id: nat, defs: seq<NewStep>, k: nat)
    requires AllValid(steps) && k <= |defs| && DistinctNames(defs, k)
    ensures AllValid(steps[id := AllInserted(defs, k)])
  {
    AllInsertedFills(defs, k);
    AllInsertedDistinct(defs, k);
  }

  lemma FreshId(ids: set<nat>) returns (id: nat)
    ensures id !in ids && forall k :: k in ids ==> k < id
  {
    id := 0;
    if ids != {} {
      var k :| k in ids;
      var m := FreshId(ids - {k});
      id := if m <= k then k + 1 else m;
      forall i | i in ids ensures i < id { assert i == k || i in ids - {k}; }
    }
  }

  /** The element shows row n of the table. */
  predicate ShowsRow(s: StepExecution, st: Steps, n: string)
  {
    && n in st.defs && n in st.rows
    && s == StepExecution(n, st.defs[n], st.rows[n])
  }

  /** The list shows every row once, in order. */
  ghost predicate Lists(out: seq<StepExecution>, st: Steps)
  {
    && |out| == |st.order| && (forall i :: 0 <= i < |out| ==> ShowsRow(out[i], st, st.order[i]))
    && (forall n :: n in st.rows ==> exists i :: 0 <= i < |out| && out[i].name == n)
    && (forall i, j :: 0 <= i < j < |out| ==> out[i].name != out[j].name)
  }

  lemma ListsAll(out: seq<StepExecution>, st: Steps)
    requires st.Valid() && |out| == |st.order| && forall i :: 0 <= i < |out| ==> ShowsRow(out[i], st, st.order[i])
    ensures Lists(out, st)
  {
    forall n | n in st.rows ensures exists i :: 0 <= i < |out| && out[i].name == n {
      assert n in st.order;
      var i :| 0 <= i < |st.order| && st.order[i] == n;
      assert out[i].name == n;
    }
    forall i, j | 0 <= i < j < |out| ensures out[i].name != out[j].name {
      assert st.order[j] !in st.order[..j] && st.order[..j][i] == st.order[i];
    }
  }

  /** The tables after replacing one row, if it is there. */
  function WithRow(steps: map<nat, Steps>, id: nat, name: string, row: Row): map<nat, Steps>
  {
    if id in steps && name in steps[id].rows
    then steps[id := steps[id].(rows := steps[id].rows[name := row])] else steps
  }

  /** At most the named row is another one. */
  predicate Replaced(steps: map<nat, Steps>, steps': map<nat, Steps>, id: nat, name: string)
  {
    && steps'.Keys == steps.Keys && (forall k :: k in steps && k != id ==> steps'[k] == steps[k])
    && id in steps && steps'[id].order == steps[id].order && steps'[id].defs == steps[id].defs
    && steps'[id].rows.Keys == steps[id].rows.Keys && name in steps[id].rows
    && forall n :: n in steps[id].rows && n != name ==> steps'[id].rows[n] == steps[id].rows[n]
  }

  class Repository {
    var instances: map<nat, Instance>
    var steps: map<nat, Steps>
    var cronLocks: set<CronLock>
    var clock: nat

    ghost predicate Valid()
      reads this
    {
      steps.Keys == instances.Keys && AllValid(steps)
    }

    constructor ()
      ensures Valid() && instances == map[] && steps == map[] && cronLocks == {}
    {
      instances, steps, cronLocks, clock := map[], map[], {}, 0;
    }

    /** Time passes before each statement. */
    method Now() returns (now: nat)
      modifies this`clock
      ensures old(clock) <= clock == now
    {
      var d: nat :| true;
      clock := clock + d;
      now := clock;
    }

    method CreateInstance(workflow: string, input: Json) returns (id: nat)
      modifies this`instances, this`steps
      ensures id !in old(instances) && (old(Valid()) ==> Valid())
      ensures instances == old(instances)[id := Instance(workflow, InstanceRunning, input)]
      ensures steps == old(steps)[id := NO_STEPS]
    {
      ghost var unused := FreshId(instances.Keys);
      id :| id !in instances;
      instances, steps := instances[id := Instance(workflow, InstanceRunning, input)], steps[id := NO_STEPS];
    }

    /** One INSERT. The unique key refuses a second row of the same name. */
    method InsertStep(id: nat, s: NewStep) returns (ok: bool)
      requires id in steps
      modifies this`steps
      ensures ok <==> s.name !in old(steps)[id].rows
      ensures steps == if ok then old(steps)[id := Inserted(old(steps)[id], s)] else old(steps)
    {
      ok := s.name !in steps[id].rows;
      if ok { steps := steps[id := Inserted(steps[id], s)]; }
    }

    /** Inserts the rows one by one and stops at the first that is refused; the rows before
        it stay. */
    method CreateSteps(id: nat, defs: seq<NewStep>) returns (ok: bool, ghost k: nat)
      requires id in steps && steps[id] == NO_STEPS
      modifies this`steps
      ensures k <= |defs| && (old(Valid()) ==> Valid())
      ensures steps == old(steps)[id := AllInserted(defs, k)]
      ensures DistinctNames(defs, k) && (if ok then k == |defs| else k < |defs| && !DistinctNames(defs, k + 1))
    {
      k := 0;
      ok := true;
      var i := 0;
      while i < |defs|
        invariant k == i <= |defs|
        invariant DistinctNames(defs, i)
        invariant steps == old(steps)[id := AllInserted(defs, i)]
        invariant ok
      {
        InsertNext(defs, i);
        ok := InsertStep(id, defs[i]);
        if !ok { break; }
        i := i + 1;
        k := i;
      }
      if old(Valid()) { ReplacedValid(old(steps), id, defs, k); }
    }

    /** All step rows of the instance, by `step_order`. */
    method ListSteps(id: nat) returns (out: seq<StepExecution>)
      requires id in steps ==> steps[id].Valid()
      ensures id !in steps ==> out == []
      ensures id in steps ==> Lists(out, steps[id])
    {
      out := [];
      if id !in steps { return; }
      while |out| < |steps[id].order|
        invariant |out| <= |steps[id].order|
        invariant forall i :: 0 <= i < |out| ==> ShowsRow(out[i], steps[id], steps[id].order[i])
      {
        var n := steps[id].order[|out|];
        out := out + [StepExecution(n, steps[id].defs[n], steps[id].rows[n])];
      }
      ListsAll(out, steps[id]);
    }

    method GetStep(id: nat, name: string) returns (r: Option<StepExecution>)
      requires id in steps ==> steps[id].Valid()
      ensures r.Some? <==> id in steps && name in steps[id].rows
      ensures r.Some? ==> ShowsRow(r.value, steps[id], name)
    {
      if id in steps && name in steps[id].rows {
        r := Some(StepExecution(name, steps[id].defs[name], steps[id].rows[name]));
      } else {
        r := None;
      }
    }

    method GetInstance(id: nat) returns (r: Option<Instance>)
      ensures r == if id in instances then Some(instances[id]) else None
    {
      r := if id in instances then Some(instances[id]) else None;
    }

    /** Compare-and-set from `pending`. */
    method ClaimStep(id: nat, name: string, status: Status, input: Json) returns (won: bool)
      modifies this`steps, this`clock
      ensures old(clock) <= clock && (old(Valid()) ==> Valid())
      ensures won <==> id in old(steps) && name in old(steps)[id].rows && old(steps)[id].rows[name].status.Pending?
      ensures steps == if won then WithRow(old(steps), id, name, ClaimRow(old(steps)[id].rows[name], status, input, clock))
                       else old(steps)
      ensures won ==> Replaced(old(steps), steps, id, name)
      ensures won ==>
                var r, r' := old(steps)[id].rows[name], steps[id].rows[name];
                && r'.status == status && r'.output == r.output && r'.error == r.error && r'.completedAt == r.completedAt
                && r'.input == (if status in {Running, WaitingManual, WaitingQueueTi} then input else r.input)
                && r'.startedAt == (if status == Running && r.startedAt == None then Some(clock) else r.startedAt)
    {
      var now := Now();
      won := id in steps && name in steps[id].rows && steps[id].rows[name].status.Pending?;
      if won { steps := WithRow(steps, id, name, ClaimRow(steps[id].rows[name], status, input, now)); }
    }

    /** Unguarded: writes whatever status the row has. */
    method UpdateStepStatus(id: nat, name: string, status: Status, payload: Json, error: string)
      modifies this`steps, this`clock
      ensures old(clock) <= clock && (old(Valid()) ==> Valid())
      ensures steps == if id in old(steps) && name in old(steps)[id].rows
                       then WithRow(old(steps), id, name, UpdateRow(old(steps)[id].rows[name], status, payload, error, clock))
                       else old(steps)
      ensures id in old(steps) && name in old(steps)[id].rows ==>
                && Replaced(old(steps), steps, id, name)
                && var r, r' := old(steps)[id].rows[name], steps[id].rows[name];
                   && r'.status == status && r'.error == error
                   && r'.input == (if status in {Running, WaitingManual, WaitingQueueTi} then payload else r.input)
                   && r'.output == (if status in {Completed, Failed} then payload else r.output)
                   && r'.startedAt == (if status in {Running, Completed} && r.startedAt == None then Some(clock) else r.startedAt)
                   && r'.completedAt == (if status in {Completed, Failed} then Some(clock) else r.completedAt)
    {
      var now := Now();
      if id in steps && name in steps[id].rows {
        steps := WithRow(steps, id, name, UpdateRow(steps[id].rows[name], status, payload, error, now));
      }
    }

    /** True for the node that is to start the workflow for this firing. */
    method TryAcquireCronLock(workflow: string, index: nat, scheduledAt: int)
    returns (won: bool, ghost deleteFirst: bool)
      modifies this`cronLocks, this`clock
      ensures old(clock) <= clock && (old(Valid()) ==> Valid())
      ensures var l := CronLock(workflow, index, scheduledAt);
              && won == Acquires(old(cronLocks), l, clock, deleteFirst)
              && cronLocks == AfterAcquire(old(cronLocks), l, clock, deleteFirst)
      ensures var l := CronLock(workflow, index, scheduledAt);
              && (l !in old(cronLocks) ==> won)
              && (won ==> l in cronLocks && (l !in old(cronLocks) || scheduledAt < clock - 86_400))
      ensures forall m :: m in cronLocks ==> m in old(cronLocks) || (won && m == CronLock(workflow, index, scheduledAt))
      ensures forall m :: m in old(cronLocks) && (m.workflow != workflow || m.index != index) ==> m in cronLocks
      ensures forall m :: m in old(cronLocks) && m.scheduledAt >= clock - 86_400 ==> m in cronLocks
      ensures forall m :: m in cronLocks && m.workflow == workflow && m.index == index && m.scheduledAt < clock - 86_400 ==>
                won && m == CronLock(workflow, index, scheduledAt)
    {
      var now := Now();
      var l := CronLock(workflow, index, scheduledAt);
      var first: bool :| true;
      deleteFirst := first;
      if first {
        cronLocks := Pruned(cronLocks, l, now);
        won := l !in cronLocks;
        if won { cronLocks := cronLocks + {l}; }
      } else {
        var left := Pruned(cronLocks, l, now);
        won := l !in cronLocks;
        cronLocks := if won then left + {l} else left;
      }
    }

    /** Compare-and-set from `running`. */
    method ClaimInstanceTerminal(id: nat, status: InstanceStatus) returns (won: bool)
      modifies this`instances
      ensures old(Valid()) ==> Valid()
      ensures won <==> id in old(instances) && old(instances)[id].status.InstanceRunning?
      ensures instances == if won then old(instances)[id := old(instances)[id].(status := status)] else old(instances)
    {
      won := id in instances && instances[id].status.InstanceRunning?;
      if won { instances := instances[id := instances[id].(status := status)]; }
    }
  }
}
