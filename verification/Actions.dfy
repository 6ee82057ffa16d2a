/** What each kind of atomic action says about the call that performs it, so that a proof
    can treat the kinds one by one. */
module Actions {
  import opened Types
  import opened Protocol
  import opened Safety

  /** The loop is about to win its compare-and-set. */
  predicate Claims(cfg: Config, s: State, pc: Pc)
    requires pc.Looping? && pc.j < |cfg.order|
  {
    var n := cfg.order[pc.j];
    ReadyIn(cfg, pc.snap, n) && n in s.rows && s.rows[n].status.Pending?
  }

  /** An action that does not write to the database. */
  predicate Moving(cfg: Config, s: State, pc: Pc, pc': Pc, effect: Option<Effect>, fact: Option<Fact>)
    requires cfg.Valid()
  {
    match pc
    case Creating(k) => k >= |cfg.order| && pc' == Listing && effect == None && fact == None
    case Listing => pc' == AfterListing(s.rows) && effect == Some(Snapshot) && fact == None
    case Looping(snap, j) =>
      && (j < |cfg.order| ==> !Claims(cfg, s, pc)) && effect == None && fact == None
      && pc' == (if j < |cfg.order| then Looping(snap, j + 1) else Done)
    case Announcing(snap, j) =>
      pc' == Looping(snap, j + 1) && fact == None
      && effect == (if j < |cfg.order| then Some(Notified(cfg.order[j])) else None)
    case Watching(snap, j) =>
      pc' == Looping(snap, j + 1) && fact == None
      && effect == (if cfg.poller && j < |cfg.order| then Some(Watched(cfg.order[j])) else None)
    case Sending(n, input) =>
      && effect == Some(Sent(n)) && fact.Some? && fact.value.AnswerFact?
      && fact == Some(AnswerFact(n, input, fact.value.answer)) && pc' == AfterAnswer(n, fact.value.answer)
    case Checking(n, out) =>
      if n in s.rows && s.rows[n].status.Waiting()
      then pc' == Completing(n, out) && effect == Some(Accepted(n)) && fact == Some(AcceptFact(n, out))
      else pc' == Done && effect == None && fact == None
    case Publishing(n, out) =>
      pc' == Listing
      && effect == (if Publishes(cfg, n, out) then Some(Published(n)) else None)
      && fact == (if Publishes(cfg, n, out) then Some(PublishFact(n, out)) else None)
    case Terminating(_) => !s.inst.InstanceRunning? && pc' == Done && effect == None && fact == None
    case Reporting(_) => pc' == Done && effect == Some(TerminalEvent) && fact == None
    case Done => pc' == Done && effect == None && fact == None
    case Completing(_, _) => false
    case Failing(_, _) => false
  }

  /** Action a is one that a call at pc may perform in state s. */
  predicate Fires(cfg: Config, s: State, pc: Pc, a: Action)
    requires cfg.Valid()
  {
    match a
    case Insert(n, pc') => pc.Creating? && pc.k < |cfg.order| && n == cfg.order[pc.k] && pc' == Creating(pc.k + 1)
    case Claim(n, status, input, pc') =>
      && pc.Looping? && pc.j < |cfg.order| && n == cfg.order[pc.j] && ReadyIn(cfg, pc.snap, n)
      && n in s.rows && s.rows[n].status.Pending?
      && status == ClaimStatus(cfg.defs[n].trigger) && input == StepInput(cfg.defs[n], pc.snap)
      && pc' == AfterClaim(cfg.defs[n].trigger, pc.snap, pc.j, n, input)
    case Complete(n, out, pc') => pc == Completing(n, out) && pc' == Publishing(n, out)
    case Fail(n, error, pc') => pc == Failing(n, error) && pc' == Listing
    case End(inst, pc') => pc == Terminating(inst) && s.inst.InstanceRunning? && pc' == Reporting(inst)
    case Move(pc', effect, fact) => Moving(cfg, s, pc, pc', effect, fact)
  }

  /** An action has at most one effect. */
  lemma EmittedOnce(a: Action, e: Effect)
    ensures Emitted(a)[e] == if (a.Complete? && e == Wrote(a.n)) || (a.Move? && a.effect == Some(e)) then 1 else 0
  {
  }

  lemma NextFires(cfg: Config, s: State, pc: Pc, answer: HttpResult)
    requires cfg.Valid()
    ensures Fires(cfg, s, pc, Next(cfg, s, pc, answer))
  {
  }
}
