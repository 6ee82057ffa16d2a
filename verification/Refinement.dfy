/** How the database, changed in place by one node, follows the protocol: a statement of the
    engine is one action of its call, possibly after time has passed. */
module Refinement {
  import opened Types
  import opened Protocol
  import opened Safety
  import opened Actions
  import opened Lifecycle
  import opened Storage
  import opened Setup

  /** Something that left the engine: an HTTP request, a notification, a registration with
      the poller, or a published message. `kind` is the type of the notified event or the
      topic of the message; a request comes with its answer. */
  datatype Outgoing = Outgoing(id: nat, effect: Effect, kind: string, payload: Json, answer: Option<HttpResult>)

  const STEP_WAITING_MANUAL := "step.waiting_manual"
  const INSTANCE_COMPLETED := "instance.completed"
  const INSTANCE_FAILED := "instance.failed"

  /** Everything that a node's statements can see or change. */
  datatype View = View(instances: map<nat, Instance>, steps: map<nat, Steps>, now: nat, sent: seq<Outgoing>)

  predicate External(e: Effect)
  {
    e.Sent? || e.Notified? || e.Watched? || e.Published? || e.TerminalEvent?
  }

  /** What was sent for one instance, with its multiplicity. */
  ghost function SentFor(id: nat, sent: seq<Outgoing>): multiset<Effect>
  {
    if sent == [] then multiset{}
    else SentFor(id, sent[..|sent| - 1])
         + (if sent[|sent| - 1].id == id then multiset{sent[|sent| - 1].effect} else multiset{})
  }

  predicate Announces(kind: string, inst: InstanceStatus)
  {
    match inst
    case InstanceRunning => false
    case InstanceCompleted => kind == INSTANCE_COMPLETED
    case InstanceFailed => kind == INSTANCE_FAILED
  }

  /** A request carried the input that was so answered; a message the output that was published,
      to the topic of the step; and an event is that of the step or the terminal status. */
  ghost predicate Backed(o: Outgoing, cfg: Config, inst: InstanceStatus, facts: set<Fact>)
  {
    match o.effect
    case Sent(n) => o.answer.Some? && AnswerFact(n, o.payload, o.answer.value) in facts
    case Published(n) => PublishFact(n, o.payload) in facts && n in cfg.defs && o.kind == cfg.defs[n].publishTopic
    case Notified(_) => o.kind == STEP_WAITING_MANUAL
    case TerminalEvent => Announces(o.kind, inst)
    case _ => true
  }

  ghost predicate SameSent(id: nat, sent: seq<Outgoing>, cfg: Config, s: State)
  {
    && (forall e: Effect :: External(e) ==> SentFor(id, sent)[e] == s.effects[e])
    && (forall k :: 0 <= k < |sent| && sent[k].id == id ==> Backed(sent[k], cfg, s.inst, s.facts))
  }

  /** All rows of the instance are stored, and they and its status are what the protocol's
      state says. */
  ghost predicate Shows(db: View, id: nat, cfg: Config, s: State)
  {
    && id in db.steps && db.steps[id] == Steps(cfg.order, cfg.defs, s.rows) && Full(cfg, s.rows)
    && id in db.instances && db.instances[id].status == s.inst
    && s.clock <= db.now
  }

  /** The database and what was sent for the instance are what the protocol's state says. */
  ghost predicate Mirrors(db: View, id: nat, cfg: Config, s: State)
  {
    Shows(db, id, cfg, s) && SameSent(id, db.sent, cfg, s)
  }

  /** Only the given instance has changed, and of its instance row only the status. */
  ghost predicate Touches(db: View, id: nat, db': View)
  {
    && db.now <= db'.now
    && db'.instances.Keys == db.instances.Keys && db'.steps.Keys == db.steps.Keys
    && (forall k :: k in db.instances && k != id ==> db'.instances[k] == db.instances[k])
    && (forall k :: k in db.steps && k != id ==> db'.steps[k] == db.steps[k])
    && (id in db.instances ==> db'.instances[id] == db.instances[id].(status := db'.instances[id].status))
    && db.sent <= db'.sent && forall k :: |db.sent| <= k < |db'.sent| ==> db'.sent[k].id == id
  }

  lemma TouchesTransitive(a: View, b: View, c: View, id: nat)
    requires Touches(a, id, b) && Touches(b, id, c)
    ensures Touches(a, id, c)
  {
  }

  lemma {:induction false} SentForOther(k: nat, id: nat, a: seq<Outgoing>, b: seq<Outgoing>)
    requires k != id && a <= b && forall i :: |a| <= i < |b| ==> b[i].id == id
    ensures SentFor(k, b) == SentFor(k, a)
    decreases |b|
  {
    if a != b {
      SentForOther(k, id, a, b[..|b| - 1]);
    }
  }

  /** What is done for one instance leaves the others as they were. */
  lemma OthersMirrored(db: View, id: nat, db': View, k: nat, cfg: Config, s: State)
    requires Touches(db, id, db') && k != id && Mirrors(db, k, cfg, s)
    ensures Mirrors(db', k, cfg, s)
  {
    SentForOther(k, id, db.sent, db'.sent);
  }

  // ---- Runs of one call ----

  /** Call c performs its next action when the clock shows `now`. */
  function Acts(cfg: Config, s: State, c: nat, now: nat, answer: HttpResult): State
    requires cfg.Valid() && s.clock <= now
  {
    Apply(cfg, s.(clock := now), Act(c, answer))
  }

  ghost predicate OnlyCall(ls: seq<Label>, c: nat)
  {
    forall l :: l in ls ==> l.Tick? || (l.Act? && l.i == c)
  }

  /** From w, actions of call c alone lead to v. */
  ghost predicate Leads(cfg: Config, w: State, c: nat, v: State)
    requires cfg.Valid()
  {
    exists ls :: OnlyCall(ls, c) && Exec(cfg, w, ls) == v
  }

  lemma LeadsNowhere(cfg: Config, w: State, c: nat)
    requires cfg.Valid()
    ensures Leads(cfg, w, c, w)
  {
    assert OnlyCall([], c) && Exec(cfg, w, []) == w;
  }

  lemma LeadsLabel(cfg: Config, w: State, c: nat, v: State, l: Label)
    requires cfg.Valid() && Leads(cfg, w, c, v) && OnlyCall([l], c)
    ensures Leads(cfg, w, c, Apply(cfg, v, l))
  {
    var ls :| OnlyCall(ls, c) && Exec(cfg, w, ls) == v;
    var more := ls + [l];
    assert l in [l] && more[..|more| - 1] == ls;
    assert OnlyCall(more, c) && Exec(cfg, w, more) == Apply(cfg, v, l);
  }

  lemma LeadsOn(cfg: Config, w: State, c: nat, v: State, now: nat, answer: HttpResult)
    requires cfg.Valid() && Leads(cfg, w, c, v) && v.clock <= now
    ensures Leads(cfg, w, c, Acts(cfg, v, c, now, answer))
  {
    LeadsLabel(cfg, w, c, v, Tick(now - v.clock));
    LeadsLabel(cfg, w, c, v.(clock := now), Act(c, answer));
  }

  // ---- One action ----

  /** The next action of call c, performed when the clock shows `now`. */
  function NextAt(cfg: Config, s: State, c: nat, now: nat, answer: HttpResult): Action
    requires cfg.Valid() && c < |s.calls|
  {
    Next(cfg, s.(clock := now), s.calls[c], answer)
  }

  /** What leaves the engine with an action. */
  ghost predicate Sends(id: nat, sent: seq<Outgoing>, cfg: Config, inst: InstanceStatus, a: Action,
                        sent': seq<Outgoing>)
  {
    if a.Move? && a.effect.Some? && External(a.effect.value)
    then |sent'| == |sent| + 1 && sent' == sent + [sent'[|sent|]]
      && sent'[|sent|].id == id && sent'[|sent|].effect == a.effect.value
      && Backed(sent'[|sent|], cfg, inst, Learned(a))
    else sent' == sent
  }

  /** Call c performs its next action, and the database and the outside follow it. */
  ghost predicate Follows(db: View, id: nat, cfg: Config, s: State, c: nat, answer: HttpResult, db': View)
  {
    && cfg.Valid() && c < |s.calls| && s.clock <= db.now
    && Touches(db, id, db')
    && Shows(db', id, cfg, Acts(cfg, s, c, db'.now, answer))
    && Sends(id, db.sent, cfg, s.inst, NextAt(cfg, s, c, db'.now, answer), db'.sent)
  }

  /** Call c on instance id, with any relation between the database and the protocol's state
      that the call's actions keep. */
  datatype Call = Call(id: nat, cfg: Config, c: nat, keeps: (View, State) -> bool)
  {
    /** The call's next action keeps the relation. */
    ghost predicate KeptBy(db: View, s: State, answer: HttpResult, db': View)
    {
      keeps(db, s) && Follows(db, id, cfg, s, c, answer, db') ==> keeps(db', Acts(cfg, s, c, db'.now, answer))
    }

    ghost predicate Valid()
    {
      cfg.Valid() && forall db, s, answer, db' :: KeptBy(db, s, answer, db')
    }

    /** The call stands at pc in state s, which the database shows. */
    ghost predicate At(db: View, s: State, pc: Pc)
    {
      Shows(db, id, cfg, s) && keeps(db, s) && c < |s.calls| && s.calls[c] == pc
    }
  }

  /** Nothing is written and nothing leaves the engine. */
  lemma Quiet(k: Call, db: View, s: State, pc: Pc, db': View) returns (s': State)
    requires k.Valid() && k.At(db, s, pc) && db.now <= db'.now && db' == db.(now := db'.now)
    requires var a := NextAt(k.cfg, s, k.c, db'.now, NO_ANSWER);
             a.Move? && !(a.effect.Some? && External(a.effect.value))
    ensures k.At(db', s', NextAt(k.cfg, s, k.c, db'.now, NO_ANSWER).pc) && s'.rows == s.rows && s'.inst == s.inst
  {
    s' := Acts(k.cfg, s, k.c, db'.now, NO_ANSWER);
    assert Follows(db, k.id, k.cfg, s, k.c, NO_ANSWER, db') && k.KeptBy(db, s, NO_ANSWER, db');
  }

  lemma LoopEnds(k: Call, db: View, s: State, snap: Table, j: nat) returns (s': State)
    requires k.Valid() && k.At(db, s, Looping(snap, j)) && j >= |k.cfg.order|
    ensures k.At(db, s', Done) && s'.rows == s.rows
  {
    s' := Quiet(k, db, s, Looping(snap, j), db);
  }

  /** Nothing is written; something leaves the engine. */
  lemma Loud(k: Call, db: View, s: State, pc: Pc, answer: HttpResult, o: Outgoing) returns (s': State)
    requires k.Valid() && k.At(db, s, pc)
    requires var a := NextAt(k.cfg, s, k.c, db.now, answer);
             a.Move? && a.effect == Some(o.effect) && External(o.effect) && o.id == k.id
             && Backed(o, k.cfg, s.inst, Learned(a))
    ensures k.At(db.(sent := db.sent + [o]), s', NextAt(k.cfg, s, k.c, db.now, answer).pc)
    ensures s'.rows == s.rows && s'.inst == s.inst
  {
    s' := Acts(k.cfg, s, k.c, db.now, answer);
    assert Follows(db, k.id, k.cfg, s, k.c, answer, db.(sent := db.sent + [o])) && k.KeptBy(db, s, answer, db.(sent := db.sent + [o]));
  }

  /** The status of the instance is written. */
  lemma Ended(k: Call, db: View, s: State, status: InstanceStatus) returns (s': State)
    requires k.Valid() && k.At(db, s, Terminating(status)) && s.inst.InstanceRunning?
    ensures k.At(db.(instances := db.instances[k.id := db.instances[k.id].(status := status)]), s', Reporting(status))
    ensures s'.rows == s.rows && s'.inst == status
  {
    s' := Acts(k.cfg, s, k.c, db.now, NO_ANSWER);
    var db' := db.(instances := db.instances[k.id := db.instances[k.id].(status := status)]);
    assert Follows(db, k.id, k.cfg, s, k.c, NO_ANSWER, db') && k.KeptBy(db, s, NO_ANSWER, db');
  }

  /** One row is written. */
  lemma Written(k: Call, db: View, s: State, pc: Pc, db': View, name: string, row: Row) returns (s': State)
    requires k.Valid() && k.At(db, s, pc) && db.now <= db'.now && name in s.rows
    requires db' == db.(now := db'.now, steps := WithRow(db.steps, k.id, name, row))
    requires var a := NextAt(k.cfg, s, k.c, db'.now, NO_ANSWER);
             !a.Move? && !a.End? && NextRows(s.(clock := db'.now), a) == s.rows[name := row]
    ensures k.At(db', s', NextAt(k.cfg, s, k.c, db'.now, NO_ANSWER).pc)
    ensures s'.rows == s.rows[name := row]
  {
    s' := Acts(k.cfg, s, k.c, db'.now, NO_ANSWER);
    assert s.rows[name := row].Keys == s.rows.Keys;
    assert Follows(db, k.id, k.cfg, s, k.c, NO_ANSWER, db') && k.KeptBy(db, s, NO_ANSWER, db');
  }

  /** A step is written as completed. */
  lemma Completes(k: Call, db: View, s: State, name: string, out: Json, db': View) returns (s': State)
    requires k.Valid() && k.At(db, s, Completing(name, out)) && db.now <= db'.now && name in s.rows
    requires db' == db.(now := db'.now,
                        steps := WithRow(db.steps, k.id, name, UpdateRow(s.rows[name], Completed, out, "", db'.now)))
    ensures k.At(db', s', Publishing(name, out))
    ensures s'.rows == s.rows[name := UpdateRow(s.rows[name], Completed, out, "", db'.now)]
  {
    s' := Written(k, db, s, Completing(name, out), db', name, UpdateRow(s.rows[name], Completed, out, "", db'.now));
  }

  /** A step is written as failed. */
  lemma Fails(k: Call, db: View, s: State, name: string, error: ErrorText, db': View) returns (s': State)
    requires k.Valid() && k.At(db, s, Failing(name, error)) && db.now <= db'.now && name in s.rows
    requires db' == db.(now := db'.now,
                        steps := WithRow(db.steps, k.id, name, UpdateRow(s.rows[name], Failed, Absent, error, db'.now)))
    ensures k.At(db', s', Listing)
    ensures s'.rows == s.rows[name := UpdateRow(s.rows[name], Failed, Absent, error, db'.now)]
  {
    s' := Written(k, db, s, Failing(name, error), db', name, UpdateRow(s.rows[name], Failed, Absent, error, db'.now));
  }

  function Pendings(rows: Table): set<string>
  {
    set n | n in rows && rows[n].status.Pending?
  }

  function PendingCount(rows: Table): nat
  {
    |Pendings(rows)|
  }

  lemma FewerPending(rows: Table, n: string, row: Row)
    requires n in rows && rows[n].status.Pending? && !row.status.Pending?
    ensures rows[n := row].Keys == rows.Keys && PendingCount(rows[n := row]) < PendingCount(rows)
  {
    assert Pendings(rows[n := row]) == Pendings(rows) - {n};
  }

  /** The compare-and-set on step j of the snapshot is won. */
  lemma ClaimWon(k: Call, db: View, s: State, snap: Table, j: nat, db': View) returns (s': State)
    requires k.Valid() && k.At(db, s, Looping(snap, j)) && db.now <= db'.now
    requires j < |k.cfg.order| && ReadyIn(k.cfg, snap, k.cfg.order[j])
    requires k.cfg.order[j] in s.rows && s.rows[k.cfg.order[j]].status.Pending?
    requires var n := k.cfg.order[j]; var def := k.cfg.defs[n];
             db' == db.(now := db'.now,
                        steps := WithRow(db.steps, k.id, n,
                                         ClaimRow(s.rows[n], ClaimStatus(def.trigger), StepInput(def, snap), db'.now)))
    ensures var n := k.cfg.order[j]; var def := k.cfg.defs[n];
            && k.At(db', s', AfterClaim(def.trigger, snap, j, n, StepInput(def, snap)))
            && s'.rows.Keys == s.rows.Keys && PendingCount(s'.rows) < PendingCount(s.rows)
  {
    var n := k.cfg.order[j];
    var row := ClaimRow(s.rows[n], ClaimStatus(k.cfg.defs[n].trigger), StepInput(k.cfg.defs[n], snap), db'.now);
    s' := Written(k, db, s, Looping(snap, j), db', n, row);
    FewerPending(s.rows, n, row);
  }

  // ---- The work that is left ----

  lemma NoMorePending(rows: Table, n: string, row: Row)
    requires n in rows && !row.status.Pending?
    ensures rows[n := row].Keys == rows.Keys && PendingCount(rows[n := row]) <= PendingCount(rows)
  {
    if rows[n].status.Pending? {
      FewerPending(rows, n, row);
    } else {
      assert Pendings(rows[n := row]) == Pendings(rows);
    }
  }

  // ---- Reading ----

  predicate Shown(s: StepExecution, cfg: Config, rows: Table, j: nat)
  {
    && j < |cfg.order| && s.name == cfg.order[j] && s.name in cfg.defs && s.def == cfg.defs[s.name]
    && s.name in rows && s.row == rows[s.name]
  }

  /** ListSteps returns the steps in the order of the definition. */
  lemma AllListed(out: seq<StepExecution>, db: View, id: nat, cfg: Config, s: State)
    requires cfg.Valid() && Shows(db, id, cfg, s) && Lists(out, db.steps[id])
    ensures |out| == |cfg.order|
    ensures forall j :: 0 <= j < |out| ==> Shown(out[j], cfg, s.rows, j)
  {
    forall j | 0 <= j < |out| ensures Shown(out[j], cfg, s.rows, j) {
      assert ShowsRow(out[j], db.steps[id], cfg.order[j]);
    }
  }
}
