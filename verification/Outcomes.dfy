/** What one sequential node leaves behind when a call returns, derived from the protocol. */
module Outcomes {
  import opened Types
  import opened Protocol
  import opened Safety
  import opened Actions
  import opened Lifecycle
  import opened Effects
  import opened Publishing
  import opened Progress
  import opened Answers
  import opened DataFlow
  import opened FixedPoint
  import opened Confluence
  import opened Definition
  import opened Storage
  import opened Refinement
  import opened Setup

  // ---- The outcomes ----

  /** What a step of this trigger type can have come to when nothing is running. */
  predicate ComesTo(t: TriggerType, status: Status)
  {
    match t
    case Manual => status.Pending? || status.WaitingManual? || status.Completed?
    case QueueTi => status.Pending? || status.WaitingQueueTi? || status.Completed?
    case Auto => status.Pending? || status.Completed?
    case Http => status.Pending? || status.Completed? || status.Failed?
  }

  /** The instance stands where its steps say: no step is running or off its path; the instance
      is failed if and only if a step failed, completed if and only if all completed; and unless
      it is failed, every pending step has a dependency that is not completed. */
  ghost predicate Settled(st: Steps, status: InstanceStatus)
  {
    && st.rows.Keys == st.defs.Keys
    && (forall n :: n in st.rows && n in st.defs ==> ComesTo(st.defs[n].trigger, st.rows[n].status))
    && (status.InstanceFailed? <==> exists n :: n in st.rows && st.rows[n].status.Failed?)
    && (status.InstanceCompleted? <==> forall n :: n in st.rows ==> st.rows[n].status.Completed?)
    && (!status.InstanceFailed? ==>
          forall n :: n in st.defs && n in st.rows && st.rows[n].status.Pending? ==>
            exists d :: d in st.defs[n].deps && !(d in st.rows && st.rows[d].status.Completed?))
  }

  /** No step is completed outside the least set that contains `from` and every auto or http
      step whose dependencies it contains. */
  ghost predicate WithinClosure(st: Steps, from: set<string>)
  {
    && from <= CompletedSet(st.rows)
    && (forall D: set<string> :: from <= D && Closed(st.defs, D) ==> CompletedSet(st.rows) <= D)
  }

  /** The completed steps are that set, and exactly the manual and queueti steps that this makes
      ready wait. */
  ghost predicate LeastClosure(st: Steps, from: set<string>)
  {
    var C := CompletedSet(st.rows);
    && WithinClosure(st, from) && Closed(st.defs, C)
    && (forall n :: n in st.rows && n in st.defs && Activated(st.defs[n].trigger) ==>
          (st.rows[n].status == ClaimStatus(st.defs[n].trigger) <==> Within(st.defs[n].deps, C) && n !in C))
  }

  /** Inputs and outputs are where the documentation says they come from. */
  ghost predicate DataFlows(st: Steps)
  {
    forall n :: n in st.rows && n in st.defs && !st.rows[n].status.Pending? ==>
      var r, def := st.rows[n], st.defs[n];
      && (if def.staticInput != Absent then r.input == def.staticInput else Gathers(r.input, def.deps, st.rows))
      && (r.status.Completed? && def.trigger.Auto? ==> r.output == r.input)
  }

  function Ones(b: bool): nat
  {
    if b then 1 else 0
  }

  ghost predicate SentForStep(id: nat, n: string, def: StepDef, r: Row, sent: seq<Outgoing>, poller: bool)
  {
    && SentFor(id, sent)[Sent(n)] == Ones(def.trigger.Http? && !r.status.Pending?)
    && SentFor(id, sent)[Notified(n)] == Ones(def.trigger.Manual? && !r.status.Pending?)
    && SentFor(id, sent)[Watched(n)] == Ones(def.trigger.QueueTi? && poller && !r.status.Pending?)
    && SentFor(id, sent)[Published(n)] == Ones(r.status.Completed? && def.publishTopic != "" && r.output != Absent)
  }

  /** A request carried the step's input, and the step ended as it was answered: completed with
      the payload, or failed with the message. A message carries the step's output to its
      topic; an event tells what happened. */
  predicate CarriesRight(o: Outgoing, st: Steps, status: InstanceStatus)
  {
    match o.effect
    case Sent(n) =>
      && n in st.rows && o.payload == st.rows[n].input && o.answer.Some?
      && (match o.answer.value
          case Success(out) => st.rows[n].status.Completed? && st.rows[n].output == out
          case Failure(message) => st.rows[n].status.Failed? && st.rows[n].error == message)
    case Published(n) =>
      && n in st.defs && n in st.rows && st.rows[n].status.Completed?
      && o.payload == st.rows[n].output && o.kind == st.defs[n].publishTopic
    case Notified(_) => o.kind == "step.waiting_manual"
    case TerminalEvent =>
      if status.InstanceFailed? then o.kind == "instance.failed"
      else status.InstanceCompleted? && o.kind == "instance.completed"
    case _ => true
  }

  /** What was sent for the instance so far, exactly: one request for each http step that is
      not pending, one notification for each such manual step, one registration for each such
      queueti step if there is a poller, one message for each completed step with a topic and
      a non-empty output, and one terminal event if the instance has ended. */
  ghost predicate SentRight(id: nat, st: Steps, status: InstanceStatus, sent: seq<Outgoing>, poller: bool)
  {
    && SentFor(id, sent)[TerminalEvent] == Ones(!status.InstanceRunning?)
    && (forall n :: n in st.defs && n in st.rows ==> SentForStep(id, n, st.defs[n], st.rows[n], sent, poller))
    && (forall k :: 0 <= k < |sent| && sent[k].id == id ==> CarriesRight(sent[k], st, status))
  }

  /** What an instance's history has been: its configuration, the protocol's state, and the
      labels that led there. */
  datatype World = World(cfg: Config, s: State, ls: seq<Label>)

  /** The instance was brought about by this history, which has come to rest. */
  ghost predicate Rests(db: View, id: nat, w: World)
  {
    w.cfg.Valid() && Mirrors(db, id, w.cfg, w.s) && Run(w.cfg, w.ls, w.s) && Quiescent(w.s)
  }

  lemma RestSettled(db: View, id: nat, w: World)
    requires Rests(db, id, w)
    ensures Settled(db.steps[id], db.instances[id].status)
  {
    RunLeads(w.cfg, w.ls, w.s);
    Always(w.cfg, w.ls);
    AtRest(w.cfg, w.ls);
    forall n | n in w.cfg.defs && n in w.s.rows ensures ComesTo(w.cfg.defs[n].trigger, w.s.rows[n].status) {
      assert Along(w.cfg.defs[n].trigger, Pending, w.s.rows[n].status);
    }
    forall n | !AnyFailed(w.s.rows) && n in w.cfg.defs && n in w.s.rows && w.s.rows[n].status.Pending?
      ensures exists d :: d in w.cfg.defs[n].deps && !(d in w.s.rows && w.s.rows[d].status.Completed?)
    {
      assert !ReadyIn(w.cfg, w.s.rows, n);
    }
  }

  lemma RestFlows(db: View, id: nat, w: World)
    requires Rests(db, id, w)
    ensures DataFlows(db.steps[id])
  {
    RunLeads(w.cfg, w.ls, w.s);
    var st := db.steps[id];
    forall n | n in st.rows && n in st.defs && !st.rows[n].status.Pending?
      ensures var r, def := st.rows[n], st.defs[n];
              && (if def.staticInput != Absent then r.input == def.staticInput else Gathers(r.input, def.deps, st.rows))
              && (r.status.Completed? && def.trigger.Auto? ==> r.output == r.input)
    {
      DataFlowEquation(w.cfg, w.ls, n);
    }
  }

  lemma WinnerCount(id: nat, db: View, w: World, e: Effect, fits: bool)
    requires Rests(db, id, w) && LeadsTo(w.cfg, w.ls, w.s) && Winners(e) && (fits <==> Fits(w.cfg, e))
    ensures SentFor(id, db.sent)[e] == Ones(fits && Claimed(w.s, e))
  {
    assert External(e);
    if fits {
      ExactlyOnce(w.cfg, w.ls, e);
    } else {
      AlwaysOnce(w.cfg, w.ls);
    }
  }

  lemma StepSentRight(id: nat, db: View, w: World, n: string)
    requires Rests(db, id, w) && LeadsTo(w.cfg, w.ls, w.s) && n in w.cfg.defs && n in w.s.rows
    ensures SentForStep(id, n, w.cfg.defs[n], w.s.rows[n], db.sent, w.cfg.poller)
  {
    var t := w.cfg.defs[n].trigger;
    WinnerCount(id, db, w, Sent(n), t.Http?);
    WinnerCount(id, db, w, Notified(n), t.Manual?);
    WinnerCount(id, db, w, Watched(n), t.QueueTi? && w.cfg.poller);
    assert External(Published(n));
    PublishedExactly(w.cfg, w.ls, n);
  }

  lemma RestCarries(id: nat, db: View, w: World, o: Outgoing)
    requires Rests(db, id, w) && LeadsTo(w.cfg, w.ls, w.s) && Backed(o, w.cfg, w.s.inst, w.s.facts)
    ensures CarriesRight(o, db.steps[id], db.instances[id].status)
  {
    if o.effect.Published? { PublishedExactly(w.cfg, w.ls, o.effect.n); }
    if o.effect.Sent? { AnswerDecides(w.cfg, w.ls, o.effect.n, o.payload, o.answer.value); }
  }

  lemma RestSentRight(db: View, id: nat, w: World)
    requires Rests(db, id, w)
    ensures SentRight(id, db.steps[id], db.instances[id].status, db.sent, w.cfg.poller)
  {
    RunLeads(w.cfg, w.ls, w.s);
    WinnerCount(id, db, w, TerminalEvent, true);
    forall n | n in w.cfg.defs && n in w.s.rows
      ensures SentForStep(id, n, w.cfg.defs[n], w.s.rows[n], db.sent, w.cfg.poller)
    {
      StepSentRight(id, db, w, n);
    }
    forall k | 0 <= k < |db.sent| && db.sent[k].id == id
      ensures CarriesRight(db.sent[k], db.steps[id], db.instances[id].status)
    {
      RestCarries(id, db, w, db.sent[k]);
    }
  }

  /** What one node has left behind, working through its calls one by one, is what any number
      of nodes leave behind after any interleaving, if HTTP always succeeds and answers alike
      and the same triggers were accepted. */
  lemma NodesAgree(db: View, id: nat, w: World, cfg: Config, h: (string, Json) -> Json, ls: seq<Label>)
    requires Rests(db, id, w) && AnswersFrom(h, w.s.facts)
    requires cfg.Valid() && CrashFree(ls) && Serialized(cfg, Init(), ls) && Quiescent(Reached(cfg, ls))
    requires AnswersFrom(h, Reached(cfg, ls).facts) && SameInputs(w.cfg, cfg, w.s, Reached(cfg, ls))
    ensures SameRows(db.steps[id].rows, Reached(cfg, ls).rows)
    ensures db.instances[id].status == Reached(cfg, ls).inst
  {
    RunLeads(w.cfg, w.ls, w.s);
    Confluent(w.cfg, cfg, h, w.ls, ls);
  }

  // ---- The runs of a call ----

  lemma RunLonger(cfg: Config, ls: seq<Label>, s: State, more: seq<Label>, l: Label)
    requires cfg.Valid() && Run(cfg, ls + more, Exec(cfg, s, more)) && (l.Act? || l.Tick?)
    ensures Run(cfg, ls + (more + [l]), Exec(cfg, s, more + [l]))
  {
    RunOn(cfg, ls + more, Exec(cfg, s, more), l);
    assert ls + (more + [l]) == ls + more + [l];
    assert (more + [l])[..|more|] == more;
  }

  lemma {:induction false} RunFurther(cfg: Config, ls: seq<Label>, s: State, more: seq<Label>, c: nat)
    requires cfg.Valid() && Run(cfg, ls, s) && OnlyCall(more, c)
    ensures Run(cfg, ls + more, Exec(cfg, s, more))
    decreases |more|
  {
    if more == [] {
      assert ls + more == ls;
    } else {
      var init, l := more[..|more| - 1], more[|more| - 1];
      assert l in more;
      RunFurther(cfg, ls, s, init, c);
      RunLonger(cfg, ls, s, init, l);
      assert more == init + [l];
    }
  }

  /** The labels with which call c alone has led on. */
  lemma LedBy(w: World, c: nat, v: State) returns (more: seq<Label>)
    requires w.cfg.Valid() && Run(w.cfg, w.ls, w.s) && Leads(w.cfg, w.s, c, v)
    ensures OnlyCall(more, c) && Exec(w.cfg, w.s, more) == v && NoTriggers(more)
    ensures Run(w.cfg, w.ls + more, v)
  {
    more :| OnlyCall(more, c) && Exec(w.cfg, w.s, more) == v;
    RunFurther(w.cfg, w.ls, w.s, more, c);
  }

  /** After a call alone has run to its end, no step is completed outside the least closure of
      those at its beginning, and without a failure all of that is. */
  lemma RunsToClosure(db: View, id: nat, w: World, more: seq<Label>, v: World)
    requires w.cfg.Valid() && v == World(w.cfg, v.s, w.ls + more) && NoTriggers(more)
    requires Run(w.cfg, w.ls, w.s) && NoneTriggering(w.cfg, w.s.calls)
    requires Rests(db, id, v)
    ensures WithinClosure(db.steps[id], CompletedSet(w.s.rows))
    ensures !AnyFailed(v.s.rows) ==> LeastClosure(db.steps[id], CompletedSet(w.s.rows))
  {
    RunLeads(w.cfg, w.ls, w.s);
    RunLeads(v.cfg, v.ls, v.s);
    forall D: set<string>
      ensures CompletedSet(w.s.rows) <= D && Closed(w.cfg.defs, D) ==> CompletedSet(v.s.rows) <= D
    {
      NeverOutside(w.cfg, w.ls, more, D);
    }
    NeverOutside(w.cfg, w.ls, more, {});
    if !AnyFailed(v.s.rows) { LeastFixedPoint(w.cfg, w.ls, more, {}); }
  }

  // ---- No output is overwritten ----

  lemma StepKeepsOutputs(cfg: Config, ls: seq<Label>, s: State, l: Label)
    requires cfg.Valid() && Run(cfg, ls, s)
    ensures OutputsKept(s.rows, Apply(cfg, s, l).rows)
  {
    RunLeads(cfg, ls, s);
    Always(cfg, ls);
    AlwaysOrderly(cfg, ls);
    if l.Act? && l.i < |s.calls| {
      NextFires(cfg, s, s.calls[l.i], l.answer);
      ActionKeepsPayloads(cfg, s, l.i, Next(cfg, s, s.calls[l.i], l.answer));
    }
  }

  lemma {:induction false} RunKeepsOutputs(cfg: Config, ls: seq<Label>, s: State, more: seq<Label>, c: nat)
    requires cfg.Valid() && Run(cfg, ls, s) && OnlyCall(more, c)
    ensures OutputsKept(s.rows, Exec(cfg, s, more).rows)
    decreases |more|
  {
    if more != [] {
      var init := more[..|more| - 1];
      RunKeepsOutputs(cfg, ls, s, init, c);
      RunFurther(cfg, ls, s, init, c);
      StepKeepsOutputs(cfg, ls + init, Exec(cfg, s, init), more[|more| - 1]);
    }
  }

  // ---- What a call keeps ----

  /** Only instance id has changed since db0, and s is where call c alone has led from w. */
  ghost predicate Followed(db0: View, id: nat, cfg: Config, w: State, c: nat, db: View, s: State)
    requires cfg.Valid()
  {
    && Touches(db0, id, db) && Leads(cfg, w, c, s)
    && SameSent(id, db.sent, cfg, s)
    && |s.calls| == |w.calls| && forall i :: 0 <= i < |w.calls| && i != c ==> s.calls[i] == w.calls[i]
  }

  ghost function CallOf(db0: View, id: nat, cfg: Config, w: State, c: nat): Call
    requires cfg.Valid()
  {
    Call(id, cfg, c, (db: View, s: State) => Followed(db0, id, cfg, w, c, db, s))
  }

  /** What was sent before is still backed; only a running instance is ever terminated. */
  lemma StillBacked(o: Outgoing, cfg: Config, s: State, s': State)
    requires Backed(o, cfg, s.inst, s.facts)
    requires s.facts <= s'.facts && (s.inst.InstanceRunning? || s'.inst == s.inst)
    ensures Backed(o, cfg, s'.inst, s'.facts)
  {
  }

  /** An action's external effects are counted once more, and its others are not sent. */
  lemma CountsFollow(id: nat, sent: seq<Outgoing>, cfg: Config, inst: InstanceStatus, a: Action,
                     sent': seq<Outgoing>, effects: multiset<Effect>, e: Effect)
    requires Sends(id, sent, cfg, inst, a, sent')
    requires External(e) && SentFor(id, sent)[e] == effects[e]
    ensures SentFor(id, sent')[e] == (effects + Emitted(a))[e]
  {
    if a.Move? && a.effect.Some? && External(a.effect.value) {
      assert sent'[..|sent'| - 1] == sent;
      assert sent'[|sent'| - 1] == sent'[|sent|];
    } else {
      assert Emitted(a)[e] == 0;
    }
  }

  lemma BackedFollows(id: nat, sent: seq<Outgoing>, cfg: Config, s: State, a: Action, sent': seq<Outgoing>, s': State, k: nat)
    requires Sends(id, sent, cfg, s.inst, a, sent') && k < |sent'| && sent'[k].id == id
    requires k < |sent| ==> Backed(sent[k], cfg, s.inst, s.facts)
    requires s'.facts == s.facts + Learned(a) && (s.inst.InstanceRunning? || s'.inst == s.inst)
    requires a.Move? ==> s'.inst == s.inst
    ensures Backed(sent'[k], cfg, s'.inst, s'.facts)
  {
    if k < |sent| {
      assert sent'[k] == sent[k];
      StillBacked(sent[k], cfg, s, s');
    }
  }

  lemma SentFollows(id: nat, sent: seq<Outgoing>, cfg: Config, s: State, a: Action, sent': seq<Outgoing>, s': State)
    requires SameSent(id, sent, cfg, s) && Sends(id, sent, cfg, s.inst, a, sent')
    requires s'.effects == s.effects + Emitted(a) && s'.facts == s.facts + Learned(a)
    requires s'.inst == if a.End? then a.inst else s.inst
    requires a.End? ==> s.inst.InstanceRunning?
    ensures SameSent(id, sent', cfg, s')
  {
    forall e: Effect | External(e) ensures SentFor(id, sent')[e] == s'.effects[e] {
      CountsFollow(id, sent, cfg, s.inst, a, sent', s.effects, e);
    }
    forall k | 0 <= k < |sent'| && sent'[k].id == id ensures Backed(sent'[k], cfg, s'.inst, s'.facts) {
      BackedFollows(id, sent, cfg, s, a, sent', s', k);
    }
  }

  lemma FollowedOn(db0: View, id: nat, cfg: Config, w: State, c: nat, db: View, s: State, answer: HttpResult, db': View)
    requires cfg.Valid() && Followed(db0, id, cfg, w, c, db, s) && Follows(db, id, cfg, s, c, answer, db')
    ensures Followed(db0, id, cfg, w, c, db', Acts(cfg, s, c, db'.now, answer))
  {
    var a := NextAt(cfg, s, c, db'.now, answer);
    TouchesTransitive(db0, db, db', id);
    LeadsOn(cfg, w, c, s, db'.now, answer);
    NextFires(cfg, s.(clock := db'.now), s.calls[c], answer);
    SentFollows(id, db.sent, cfg, s, a, db'.sent, Acts(cfg, s, c, db'.now, answer));
  }

  lemma CallIsValid(db0: View, id: nat, cfg: Config, w: State, c: nat)
    requires cfg.Valid()
    ensures CallOf(db0, id, cfg, w, c).Valid()
  {
    var k := CallOf(db0, id, cfg, w, c);
    forall db, s, answer, db' ensures k.KeptBy(db, s, answer, db') {
      if k.keeps(db, s) && Follows(db, id, cfg, s, c, answer, db') {
        FollowedOn(db0, id, cfg, w, c, db, s, answer, db');
      }
    }
  }

  /** A call may begin where the database mirrors the protocol. */
  lemma Begins(db: View, id: nat, cfg: Config, w: State, c: nat)
    requires cfg.Valid() && Mirrors(db, id, cfg, w) && c < |w.calls|
    ensures CallOf(db, id, cfg, w, c).Valid() && CallOf(db, id, cfg, w, c).At(db, w, w.calls[c])
  {
    CallIsValid(db, id, cfg, w, c);
    LeadsNowhere(cfg, w, c);
  }

  // ---- All instances of a node ----

  ghost predicate AtPeace(db: View, id: nat, w: World, poller: bool)
  {
    w.cfg.poller == poller && Rests(db, id, w)
  }

  ghost predicate PeaceAt(db: View, id: nat, worlds: map<nat, World>, poller: bool)
  {
    id in worlds ==> AtPeace(db, id, worlds[id], poller)
  }

  ghost predicate SentToKnown(sent: seq<Outgoing>, ids: set<nat>)
  {
    forall k :: 0 <= k < |sent| ==> sent[k].id in ids
  }

  /** Every stored instance rests, and everything sent was sent for a stored instance. */
  ghost predicate AllRest(db: View, worlds: map<nat, World>, poller: bool)
  {
    && worlds.Keys == db.instances.Keys && db.steps.Keys == db.instances.Keys
    && SentToKnown(db.sent, worlds.Keys)
    && forall id: nat :: PeaceAt(db, id, worlds, poller)
  }

  /** Every instance but the given one is as it was, and nothing was sent for another. */
  ghost predicate OthersKept(db: View, db': View, id: nat)
  {
    && (forall k :: k in db.instances && k != id ==> k in db'.instances && db'.instances[k] == db.instances[k])
    && (forall k :: k in db.steps && k != id ==> k in db'.steps && db'.steps[k] == db.steps[k])
    && db'.instances.Keys == db.instances.Keys + {id}
    && db.sent <= db'.sent && forall k :: |db.sent| <= k < |db'.sent| ==> db'.sent[k].id == id
  }

  /** What a returning call leaves behind, if it began to advance with the steps in `from`
      completed. */
  ghost predicate Concluded(db: View, id: nat, from: set<string>, poller: bool)
  {
    && id in db.steps && id in db.instances
    && Settled(db.steps[id], db.instances[id].status)
    && WithinClosure(db.steps[id], from)
    && (!db.instances[id].status.InstanceFailed? ==> LeastClosure(db.steps[id], from))
    && DataFlows(db.steps[id]) && SentRight(id, db.steps[id], db.instances[id].status, db.sent, poller)
  }

  lemma StaysAtPeace(db: View, id: nat, db': View, k: nat, w: World, poller: bool)
    requires Touches(db, id, db') && k != id && AtPeace(db, k, w, poller)
    ensures AtPeace(db', k, w, poller)
  {
    OthersMirrored(db, id, db', k, w.cfg, w.s);
  }

  /** Time alone disturbs nothing. */
  lemma LaterRests(db: View, db': View, worlds: map<nat, World>, poller: bool)
    requires AllRest(db, worlds, poller) && db.now <= db'.now && db' == db.(now := db'.now)
    ensures AllRest(db', worlds, poller)
  {
    forall k: nat ensures PeaceAt(db', k, worlds, poller) { assert PeaceAt(db, k, worlds, poller); }
  }

  /** All instances but one rest. */
  ghost predicate OthersRest(db: View, id: nat, worlds: map<nat, World>, poller: bool)
  {
    && worlds.Keys + {id} == db.instances.Keys && db.steps.Keys == db.instances.Keys
    && SentToKnown(db.sent, worlds.Keys)
    && forall k: nat :: k != id ==> PeaceAt(db, k, worlds, poller)
  }

  /** They go on resting. */
  lemma OthersGoOnResting(db: View, id: nat, db': View, worlds: map<nat, World>, poller: bool)
    requires OthersRest(db, id, worlds, poller) && Touches(db, id, db')
    ensures forall k: nat :: k != id ==> PeaceAt(db', k, worlds, poller)
    ensures SentToKnown(db'.sent, worlds.Keys + {id})
    ensures id in worlds ==> OthersRest(db', id, worlds, poller)
  {
    forall k: nat | k != id ensures PeaceAt(db', k, worlds, poller) {
      assert PeaceAt(db, k, worlds, poller);
      if k in worlds { StaysAtPeace(db, id, db', k, worlds[k], poller); }
    }
    assert id in worlds ==> worlds.Keys + {id} == worlds.Keys;
  }

  lemma AllRestAgain(db: View, id: nat, db': View, w: World, worlds: map<nat, World>, poller: bool)
    requires OthersRest(db, id, worlds, poller) && Touches(db, id, db') && AtPeace(db', id, w, poller)
    ensures AllRest(db', worlds[id := w], poller)
  {
    OthersGoOnResting(db, id, db', worlds, poller);
    var worlds' := worlds[id := w];
    assert worlds'.Keys == worlds.Keys + {id};
    forall k: nat ensures PeaceAt(db', k, worlds', poller) {
      assert k != id ==> PeaceAt(db', k, worlds, poller);
    }
  }

  // ---- A call that returns ----

  ghost predicate OthersDone(calls: seq<Pc>, c: nat)
  {
    forall i :: 0 <= i < |calls| && i != c ==> calls[i].Done?
  }

  /** Call c of instance id is the only call in flight. */
  ghost predicate Alone(db: View, id: nat, w: World, c: nat, poller: bool)
  {
    && w.cfg.Valid() && w.cfg.poller == poller && Mirrors(db, id, w.cfg, w.s) && Run(w.cfg, w.ls, w.s)
    && c < |w.s.calls| && OthersDone(w.s.calls, c)
  }

  /** It goes on to pc. */
  lemma GoesOn(db: View, id: nat, w: World, c: nat, poller: bool, db': View, v: State, pc: Pc) returns (w': World)
    requires Alone(db, id, w, c, poller) && CallOf(db, id, w.cfg, w.s, c).At(db', v, pc)
    ensures w' == World(w.cfg, v, w'.ls) && Alone(db', id, w', c, poller) && v.calls[c] == pc && Touches(db, id, db')
  {
    assert Followed(db, id, w.cfg, w.s, c, db', v);
    var more := LedBy(w, c, v);
    w' := World(w.cfg, v, w.ls + more);
  }

  lemma Concludes(db: View, id: nat, w: World, more: seq<Label>, v: World)
    requires w.cfg.Valid() && v == World(w.cfg, v.s, w.ls + more) && NoTriggers(more)
    requires Run(w.cfg, w.ls, w.s) && NoneTriggering(w.cfg, w.s.calls) && Rests(db, id, v)
    ensures Concluded(db, id, CompletedSet(w.s.rows), w.cfg.poller)
  {
    RestSettled(db, id, v);
    RestFlows(db, id, v);
    RestSentRight(db, id, v);
    RunsToClosure(db, id, w, more, v);
  }

  /** When it has returned, the instance rests. */
  lemma RestsAgain(db: View, id: nat, w: World, c: nat, db': View, v: State, poller: bool) returns (w': World)
    requires Alone(db, id, w, c, poller) && w.s.calls[c].Listing?
    requires CallOf(db, id, w.cfg, w.s, c).At(db', v, Done)
    ensures w' == World(w.cfg, v, w'.ls) && AtPeace(db', id, w', poller) && OutputsKept(w.s.rows, v.rows)
    ensures Touches(db, id, db') && Concluded(db', id, CompletedSet(w.s.rows), poller)
    ensures db'.steps[id] == Steps(w.cfg.order, w.cfg.defs, v.rows)
  {
    assert Followed(db, id, w.cfg, w.s, c, db', v);
    var more := LedBy(w, c, v);
    w' := World(w.cfg, v, w.ls + more);
    RunKeepsOutputs(w.cfg, w.ls, w.s, more, c);
    Concludes(db', id, w, more, w');
  }

  // ---- A new instance ----

  lemma {:induction false} NothingSent(id: nat, sent: seq<Outgoing>)
    requires forall k :: 0 <= k < |sent| ==> sent[k].id != id
    ensures SentFor(id, sent) == multiset{}
  {
    if sent != [] { NothingSent(id, sent[..|sent| - 1]); }
  }

  /** The database with a new instance, before it advances. */
  function WithInstance(db: View, id: nat, workflow: string, input: Json, cfg: Config): View
  {
    db.(instances := db.instances[id := Instance(workflow, InstanceRunning, input)],
        steps := db.steps[id := Steps(cfg.order, cfg.defs, FreshTable(cfg.order))])
  }

  function NewWorld(cfg: Config): World
  {
    World(cfg, Created(cfg), Inserts(|cfg.order| + 1))
  }

  lemma CreatedReady(db: View, id: nat, workflow: string, input: Json, cfg: Config, poller: bool, ids: set<nat>)
    requires cfg.Valid() && cfg.poller == poller && SentToKnown(db.sent, ids) && id !in ids
    ensures Alone(WithInstance(db, id, workflow, input, cfg), id, NewWorld(cfg), 0, poller)
  {
    CreatedRun(cfg);
    NothingSent(id, db.sent);
  }

  /** A new instance leaves the others as they were. */
  lemma OthersStillRest(db: View, id: nat, workflow: string, input: Json, cfg: Config, worlds: map<nat, World>,
                        poller: bool)
    requires AllRest(db, worlds, poller) && id !in db.instances
    ensures OthersRest(WithInstance(db, id, workflow, input, cfg), id, worlds, poller)
  {
    var db' := WithInstance(db, id, workflow, input, cfg);
    forall k: nat | k != id ensures PeaceAt(db', k, worlds, poller) {
      assert PeaceAt(db, k, worlds, poller);
    }
  }

  /** The instance is new and runs the definition; its first call has concluded. */
  ghost predicate IsNew(db: View, db': View, id: nat, workflow: string, input: Json, cfg: Config)
  {
    && id !in db.instances && Concluded(db', id, {}, cfg.poller) && OthersKept(db, db', id)
    && db'.instances[id] == Instance(workflow, db'.instances[id].status, input)
    && db'.steps[id].order == cfg.order && db'.steps[id].defs == cfg.defs
  }

  lemma NewOnly(db: View, db': View, id: nat, workflow: string, input: Json, cfg: Config)
    requires id !in db.instances && Touches(WithInstance(db, id, workflow, input, cfg), id, db')
    ensures OthersKept(db, db', id) && id in db'.instances
    ensures db'.instances[id] == Instance(workflow, db'.instances[id].status, input)
  {
  }

  lemma NewConcludes(db: View, db': View, id: nat, workflow: string, input: Json, cfg: Config)
    requires id !in db.instances && Touches(WithInstance(db, id, workflow, input, cfg), id, db')
    requires Concluded(db', id, CompletedSet(Created(cfg).rows), cfg.poller)
    requires db'.steps[id].order == cfg.order && db'.steps[id].defs == cfg.defs
    ensures IsNew(db, db', id, workflow, input, cfg)
  {
    assert CompletedSet(Created(cfg).rows) == {};
    NewOnly(db, db', id, workflow, input, cfg);
  }

  /** Row i of the instance is step i of the definition, and has come to what its trigger says:
      a manual or queueti step waits for somebody at most, an auto step never waits, and each
      has had the effects of its own type, once it was claimed. */
  ghost predicate StepRuns(id: nat, s: StepSpec, i: nat, st: Steps, sent: seq<Outgoing>, poller: bool)
  {
    && i < |st.order| && st.order[i] == s.name && s.name in st.defs && s.name in st.rows
    && var def, r := st.defs[s.name], st.rows[s.name];
       && def.deps == s.deps && def.staticInput == s.input && def.publishTopic == s.publishTopic
       && (s.trigger == "manual" ==> def.trigger.Manual? && (r.status.Pending? || r.status.WaitingManual?))
       && (s.trigger == "queueti" ==> def.trigger.QueueTi? && (r.status.Pending? || r.status.WaitingQueueTi?))
       && (s.trigger == "auto" ==> def.trigger.Auto? && (r.status.Pending? || r.status.Completed?))
       && (s.trigger == "http" ==> def.trigger.Http? && (r.status.Pending? || r.status.Completed? || r.status.Failed?))
       && SentFor(id, sent)[Sent(s.name)] == (if s.trigger == "http" && !r.status.Pending? then 1 else 0)
       && SentFor(id, sent)[Notified(s.name)] == (if s.trigger == "manual" && !r.status.Pending? then 1 else 0)
       && SentFor(id, sent)[Watched(s.name)] == (if s.trigger == "queueti" && poller && !r.status.Pending? then 1 else 0)
       && SentFor(id, sent)[Published(s.name)]
            == (if r.status.Completed? && s.publishTopic != "" && r.output != Absent then 1 else 0)
  }

  /** The instance consists of the steps of the definition, in their order. */
  ghost predicate RunsDefinition(id: nat, steps: seq<StepSpec>, st: Steps, sent: seq<Outgoing>, poller: bool)
  {
    |st.order| == |steps| && forall i :: 0 <= i < |steps| ==> StepRuns(id, steps[i], i, st, sent, poller)
  }

  /** No manual or queueti step of a new instance is completed. */
  lemma NobodyAnswered(st: Steps, n: string)
    requires WithinClosure(st, {}) && n in st.rows && n in st.defs && Activated(st.defs[n].trigger)
    ensures !st.rows[n].status.Completed?
  {
    var D := set m | m in st.defs && !Activated(st.defs[m].trigger);
    assert Closed(st.defs, D);
    assert n in CompletedSet(st.rows) ==> n in D;
  }

  lemma DefinitionRuns(db: View, db': View, id: nat, workflow: string, input: Json, steps: seq<StepSpec>, p: Parsers,
                       poller: bool)
    requires EngineReady(steps, p) && IsNew(db, db', id, workflow, input, ConfigOf(steps, poller))
    ensures RunsDefinition(id, steps, db'.steps[id], db'.sent, poller)
  {
    var cfg, st := ConfigOf(steps, poller), db'.steps[id];
    ValidatedConfig(steps, p, poller);
    forall i | 0 <= i < |steps| ensures StepRuns(id, steps[i], i, st, db'.sent, poller) {
      var s := steps[i];
      assert StoredStep(cfg, s, i) && s in steps && cfg.order[i] in cfg.order;
      assert ComesTo(st.defs[s.name].trigger, st.rows[s.name].status);
      assert SentForStep(id, s.name, st.defs[s.name], st.rows[s.name], db'.sent, poller);
      if Activated(st.defs[s.name].trigger) { NobodyAnswered(st, s.name); }
    }
  }

  // ---- A triggered step ----

  /** The state in which TriggerStep has looked at the step. */
  function Checked(cfg: Config, s: State, name: string, out: Json): State
    requires cfg.Valid()
  {
    Apply(cfg, Apply(cfg, s, Trigger(name, out)), Act(|s.calls|, NO_ANSWER))
  }

  lemma CheckedState(cfg: Config, s: State, name: string, out: Json)
    requires cfg.Valid()
    ensures var s', c := Checked(cfg, s, name, out), |s.calls|;
            && s'.rows == s.rows && s'.inst == s.inst && s'.clock == s.clock && s.facts <= s'.facts
            && (forall e: Effect :: External(e) ==> s'.effects[e] == s.effects[e])
            && |s'.calls| == c + 1 && (forall i :: 0 <= i < c ==> s'.calls[i] == s.calls[i])
            && s'.calls[c] == (if name in s.rows && s.rows[name].status.Waiting() then Completing(name, out) else Done)
  {
    var s1 := Apply(cfg, s, Trigger(name, out));
    var a := Next(cfg, s1, Checking(name, out), NO_ANSWER);
    assert s1.calls[|s.calls|] == Checking(name, out) && Checked(cfg, s, name, out) == Perform(s1, |s.calls|, a);
    forall e: Effect | External(e) ensures Perform(s1, |s.calls|, a).effects[e] == s.effects[e] {
      EmittedOnce(a, e);
    }
  }

  /** The history with that call. */
  function CheckedWorld(w: World, name: string, out: Json): World
    requires w.cfg.Valid()
  {
    World(w.cfg, Checked(w.cfg, w.s, name, out), w.ls + [Trigger(name, out)] + [Act(|w.s.calls|, NO_ANSWER)])
  }

  lemma CheckedRun(w: World, name: string, out: Json)
    requires w.cfg.Valid() && Run(w.cfg, w.ls, w.s) && Quiescent(w.s)
    ensures Run(w.cfg, CheckedWorld(w, name, out).ls, CheckedWorld(w, name, out).s)
  {
    RunOn(w.cfg, w.ls, w.s, Trigger(name, out));
    RunOn(w.cfg, w.ls + [Trigger(name, out)], Apply(w.cfg, w.s, Trigger(name, out)), Act(|w.s.calls|, NO_ANSWER));
  }

  lemma CheckedMirrored(db: View, id: nat, cfg: Config, s: State, name: string, out: Json)
    requires cfg.Valid() && Mirrors(db, id, cfg, s)
    ensures Mirrors(db, id, cfg, Checked(cfg, s, name, out))
  {
    CheckedState(cfg, s, name, out);
    var s' := Checked(cfg, s, name, out);
    forall k | 0 <= k < |db.sent| && db.sent[k].id == id ensures Backed(db.sent[k], cfg, s'.inst, s'.facts) {
      StillBacked(db.sent[k], cfg, s, s');
    }
  }

  /** The stored steps are readable and are those of the instance's history. */
  lemma LooksValid(db: View, id: nat, worlds: map<nat, World>, poller: bool)
    requires AllRest(db, worlds, poller)
    ensures id in db.steps ==> id in worlds && db.steps[id].Valid() && db.steps[id].rows == worlds[id].s.rows
  {
    assert PeaceAt(db, id, worlds, poller);
  }

  lemma RestsWithOthers(db: View, id: nat, worlds: map<nat, World>, poller: bool)
    requires AllRest(db, worlds, poller) && id in worlds
    ensures AtPeace(db, id, worlds[id], poller) && OthersRest(db, id, worlds, poller)
    ensures Shows(db, id, worlds[id].cfg, worlds[id].s)
  {
    assert worlds.Keys + {id} == worlds.Keys;
    assert PeaceAt(db, id, worlds, poller);
  }

  /** TriggerStep has found the step waiting and is about to complete it. */
  lemma CheckedBegins(db: View, id: nat, w: World, name: string, out: Json, poller: bool) returns (w': World)
    requires AtPeace(db, id, w, poller) && name in w.s.rows && w.s.rows[name].status.Waiting()
    ensures Alone(db, id, w', |w.s.calls|, poller) && w'.s.calls[|w.s.calls|] == Completing(name, out)
    ensures w'.cfg == w.cfg && w'.s.rows == w.s.rows
  {
    w' := CheckedWorld(w, name, out);
    CheckedState(w.cfg, w.s, name, out);
    CheckedMirrored(db, id, w.cfg, w.s, name, out);
    CheckedRun(w, name, out);
  }

  /** The same, as one of all instances of the node. */
  lemma WaitingBegins(db: View, id: nat, worlds: map<nat, World>, name: string, out: Json, poller: bool)
    returns (w': World)
    requires AllRest(db, worlds, poller) && id in worlds
    requires name in worlds[id].s.rows && worlds[id].s.rows[name].status.Waiting()
    ensures Alone(db, id, w', |worlds[id].s.calls|, poller) && OthersRest(db, id, worlds, poller)
    ensures w'.s.calls[|worlds[id].s.calls|] == Completing(name, out)
    ensures w'.cfg == worlds[id].cfg && w'.s.rows == worlds[id].s.rows
    ensures Shows(db, id, worlds[id].cfg, worlds[id].s) && worlds[id].cfg.poller == poller
  {
    RestsWithOthers(db, id, worlds, poller);
    w' := CheckedBegins(db, id, worlds[id], name, out, poller);
  }

  /** The step has been completed with this output, and its call has concluded. */
  ghost predicate IsTriggered(db: View, db': View, id: nat, name: string, out: Json, poller: bool)
  {
    && id in db.steps && name in db.steps[id].rows && Touches(db, id, db')
    && Concluded(db', id, CompletedSet(db.steps[id].rows) + {name}, poller)
    && OutputsKept(db.steps[id].rows, db'.steps[id].rows)
    && db'.steps[id].order == db.steps[id].order && db'.steps[id].defs == db.steps[id].defs
    && name in db'.steps[id].rows && db'.steps[id].rows[name].status.Completed? && db'.steps[id].rows[name].output == out
  }

  /** The rows are those of before with one step completed. */
  ghost predicate CompletedIn(rows: Table, name: string, out: Json, rows': Table)
  {
    && (name in rows && !rows[name].status.Completed? ==> OutputsKept(rows, rows'))
    && CompletedSet(rows') == CompletedSet(rows) + {name}
    && name in rows && name in rows' && rows'[name].status.Completed? && rows'[name].output == out
  }

  lemma OneMoreCompleted(rows: Table, name: string, out: Json, now: nat)
    requires name in rows
    ensures CompletedIn(rows, name, out, rows[name := UpdateRow(rows[name], Completed, out, "", now)])
  {
  }

  lemma TriggerConcludes(db: View, id: nat, w: World, name: string, out: Json, db': View, v: State)
    requires Shows(db, id, w.cfg, w.s) && name in w.s.rows && Touches(db, id, db')
    requires Concluded(db', id, CompletedSet(w.s.rows) + {name}, w.cfg.poller)
    requires db'.steps[id] == Steps(w.cfg.order, w.cfg.defs, v.rows)
    requires name in v.rows && v.rows[name].status.Completed? && v.rows[name].output == out
    requires OutputsKept(w.s.rows, v.rows)
    ensures IsTriggered(db, db', id, name, out, w.cfg.poller)
  {
  }

  lemma ReplacedRests(db: View, id: nat, worlds: map<nat, World>, w: World, poller: bool)
    requires AllRest(db, worlds, poller) && id in worlds && AtPeace(db, id, w, poller)
    ensures AllRest(db, worlds[id := w], poller)
  {
    var worlds' := worlds[id := w];
    assert worlds'.Keys == worlds.Keys;
    forall k: nat ensures PeaceAt(db, k, worlds', poller) { assert PeaceAt(db, k, worlds, poller); }
  }

  lemma RejectedRests(db: View, id: nat, w: World, poller: bool, name: string, out: Json)
    requires AtPeace(db, id, w, poller)
    requires !(name in w.s.rows && w.s.rows[name].status.Waiting())
    ensures AtPeace(db, id, CheckedWorld(w, name, out), poller)
  {
    CheckedState(w.cfg, w.s, name, out);
    CheckedRun(w, name, out);
    CheckedMirrored(db, id, w.cfg, w.s, name, out);
  }

  /** TriggerStep has found the step not waiting: nothing changes but the history. */
  lemma Rejected(db: View, id: nat, worlds: map<nat, World>, poller: bool, name: string, out: Json)
    returns (w': World)
    requires AllRest(db, worlds, poller) && id in worlds
    requires !(name in worlds[id].s.rows && worlds[id].s.rows[name].status.Waiting())
    ensures AllRest(db, worlds[id := w'], poller)
  {
    var w := worlds[id];
    assert PeaceAt(db, id, worlds, poller);
    w' := CheckedWorld(w, name, out);
    RejectedRests(db, id, w, poller, name, out);
    ReplacedRests(db, id, worlds, w', poller);
  }
}
