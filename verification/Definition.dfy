/** Workflow definitions and their validation, which normalises the steps in place. */
module Definition {
  import opened Types

  /** The `http` block of a step. An empty verb means POST. */
  datatype HttpSpec = HttpSpec(verb: string, url: string)

  /** A step as it was parsed; an empty trigger means manual. */
  datatype StepSpec = StepSpec(
    name: string,
    trigger: string,
    deps: seq<string>,
    input: Json,
    publishTopic: string,
    queueTiTopic: string,
    http: Option<HttpSpec>)

  /** An instance trigger of a workflow. */
  datatype TriggerSpec = TriggerSpec(kind: string, schedule: string, input: Json, topic: string)

  datatype Workflow = Workflow(name: string, triggers: seq<TriggerSpec>, steps: seq<StepSpec>)

  datatype Error =
    | NameRequired
    | CronNeedsSchedule(index: nat)
    | BadSchedule(index: nat)
    | TriggerNeedsTopic(index: nat)
    | TriggerTypeRequired(index: nat)
    | UnknownTriggerType(index: nat)
    | StepNameRequired(index: nat)
    | UnsafeStepName(index: nat)
    | DuplicateStepName(index: nat)
    | UnknownStepTrigger(index: nat)
    | QueueTiNeedsTopic(index: nat)
    | HttpNeedsUrl(index: nat)
    | BadHttpUrl(index: nat)
    | BadHttpMethod(index: nat)
    | UnknownDependency(index: nat)

  datatype Result<+T> = Ok(value: T) | Err(error: Error)

  const URL_UNSAFE := "/ ?#&%+"
  const HTTP_METHODS := {"GET", "POST", "PUT", "PATCH", "DELETE", "HEAD", "OPTIONS"}

  predicate Safe(name: string)
  {
    forall c :: c in name ==> c !in URL_UNSAFE
  }

  // ---- What validation accepts, and what it makes of it ----

  /** What libraries decide: is this URL http(s) with a host, is this a schedule, and what is
      the upper case of a letter outside ASCII. */
  datatype Parsers = Parsers(url: string -> bool, schedule: string -> bool, upper: char -> char)

  function UpperChar(c: char, p: Parsers): char
  {
    if 'a' <= c <= 'z' then c - 'a' + 'A' else if c as int < 128 then c else p.upper(c)
  }

  function Upper(s: string, p: Parsers): (r: string)
    ensures |r| == |s| && forall i :: 0 <= i < |s| ==> r[i] == UpperChar(s[i], p)
  {
    if s == "" then "" else [UpperChar(s[0], p)] + Upper(s[1..], p)
  }

  /** What a step with this trigger needs. */
  predicate HasFields(s: StepSpec, p: Parsers)
  {
    && (s.trigger == "queueti" ==> s.queueTiTopic != "")
    && (s.trigger == "http" ==>
          && s.http.Some? && s.http.value.url != "" && p.url(s.http.value.url)
          && (s.http.value.verb == "" || Upper(s.http.value.verb, p) in HTTP_METHODS))
  }

  predicate KnownTrigger(t: string)
  {
    t == "manual" || t == "auto" || t == "queueti" || t == "http"
  }

  /** The step is acceptable after steps with the given names. */
  predicate StepOk(s: StepSpec, names: set<string>, p: Parsers)
  {
    && s.name != "" && Safe(s.name) && s.name !in names
    && (s.trigger == "" || KnownTrigger(s.trigger))
    && HasFields(s, p)
  }

  /** The defaults filled in. */
  function Normal(s: StepSpec, p: Parsers): StepSpec
  {
    if s.trigger == "" then s.(trigger := "manual")
    else if s.trigger == "http" && s.http.Some? && s.http.value.verb != ""
    then s.(http := Some(s.http.value.(verb := Upper(s.http.value.verb, p))))
    else s
  }

  function NormalAll(steps: seq<StepSpec>, p: Parsers): (r: seq<StepSpec>)
    ensures |r| == |steps| && forall i :: 0 <= i < |steps| ==> r[i] == Normal(steps[i], p)
  {
    seq(|steps|, i requires 0 <= i < |steps| => Normal(steps[i], p))
  }

  function Names(steps: seq<StepSpec>): set<string>
  {
    set s | s in steps :: s.name
  }

  /** Every step is acceptable after those before it. */
  predicate StepsOk(steps: seq<StepSpec>, p: Parsers)
  {
    forall i :: 0 <= i < |steps| ==> StepOk(steps[i], Names(steps[..i]), p)
  }

  predicate DepsOk(steps: seq<StepSpec>)
  {
    forall i, d :: 0 <= i < |steps| && d in steps[i].deps ==> d in Names(steps)
  }

  predicate TriggerOk(t: TriggerSpec, p: Parsers)
  {
    || (t.kind == "cron" && t.schedule != "" && p.schedule(t.schedule))
    || t.kind == "webhook"
    || (t.kind == "queueti" && t.topic != "")
  }

  predicate Acceptable(name: string, triggers: seq<TriggerSpec>, steps: seq<StepSpec>, p: Parsers)
  {
    && name != ""
    && (forall t :: t in triggers ==> TriggerOk(t, p))
    && StepsOk(steps, p)
    && DepsOk(steps)
  }

  // ---- The same, field by field ----

  /** v is u in capitals. */
  predicate InCapitals(u: string, v: string, p: Parsers)
  {
    && |v| == |u|
    && forall i :: 0 <= i < |u| ==>
         if 'a' <= u[i] <= 'z' then v[i] as int == u[i] as int - 32
         else v[i] == if u[i] as int < 128 then u[i] else p.upper(u[i])
  }

  /** A step that validation accepts, apart from its relation to the other steps. */
  predicate StepFollowsRules(s: StepSpec, p: Parsers)
  {
    && s.name != ""
    && (forall i :: 0 <= i < |s.name| ==> s.name[i] !in {'/', ' ', '?', '#', '&', '%', '+'})
    && s.trigger in {"", "manual", "auto", "queueti", "http"}
    && (s.trigger == "queueti" ==> s.queueTiTopic != "")
    && (s.trigger == "http" ==>
          && s.http.Some? && s.http.value.url != "" && p.url(s.http.value.url)
          && (s.http.value.verb == "" ||
              exists v :: v in {"GET", "POST", "PUT", "PATCH", "DELETE", "HEAD", "OPTIONS"}
                          && InCapitals(s.http.value.verb, v, p)))
  }

  predicate NamesOne(steps: seq<StepSpec>, name: string)
  {
    exists j :: 0 <= j < |steps| && steps[j].name == name
  }

  /** A definition that validation accepts: a name; triggers that have what their type needs;
      and steps with distinct names that follow the rules and depend on steps. */
  predicate FollowsRules(name: string, triggers: seq<TriggerSpec>, steps: seq<StepSpec>, p: Parsers)
  {
    && name != ""
    && (forall t :: t in triggers ==>
          || (t.kind == "cron" && t.schedule != "" && p.schedule(t.schedule))
          || t.kind == "webhook"
          || (t.kind == "queueti" && t.topic != ""))
    && (forall i :: 0 <= i < |steps| ==> StepFollowsRules(steps[i], p))
    && (forall i, j :: 0 <= i < j < |steps| ==> steps[i].name != steps[j].name)
    && (forall i, d :: 0 <= i < |steps| && d in steps[i].deps ==> NamesOne(steps, d))
  }

  /** What validation makes of a step: an empty trigger has become "manual", a given http verb
      is in capitals, and everything else is as it was. */
  predicate Defaulted(was: StepSpec, now: StepSpec, p: Parsers)
  {
    && now.name == was.name && now.deps == was.deps && now.input == was.input
    && now.publishTopic == was.publishTopic && now.queueTiTopic == was.queueTiTopic
    && now.trigger == (if was.trigger == "" then "manual" else was.trigger)
    && (if was.trigger == "http" && was.http.Some?
        then now.http.Some? && now.http.value.url == was.http.value.url
             && InCapitals(was.http.value.verb, now.http.value.verb, p)
        else now.http == was.http)
  }

  predicate AllDefaulted(was: seq<StepSpec>, now: seq<StepSpec>, p: Parsers)
  {
    |now| == |was| && forall i :: 0 <= i < |was| ==> Defaulted(was[i], now[i], p)
  }

  lemma NormalDefaults(steps: seq<StepSpec>, p: Parsers)
    ensures AllDefaulted(steps, NormalAll(steps, p), p)
  {
    forall i | 0 <= i < |steps| ensures Defaulted(steps[i], NormalAll(steps, p)[i], p) {}
  }

  lemma SafeExactly(name: string)
    ensures Safe(name) <==> forall i :: 0 <= i < |name| ==> name[i] !in {'/', ' ', '?', '#', '&', '%', '+'}
  {
    assert URL_UNSAFE == ['/', ' ', '?', '#', '&', '%', '+'];
    forall i | 0 <= i < |name| ensures name[i] in URL_UNSAFE <==> name[i] in {'/', ' ', '?', '#', '&', '%', '+'} {
      assert name[i] in name;
    }
  }

  lemma CapitalsExactly(u: string, v: string, p: Parsers)
    ensures InCapitals(u, v, p) <==> v == Upper(u, p)
  {
  }

  lemma StepExactly(s: StepSpec, names: set<string>, p: Parsers)
    ensures StepOk(s, names, p) <==> StepFollowsRules(s, p) && s.name !in names
  {
    SafeExactly(s.name);
    if s.http.Some? {
      var u := s.http.value.verb;
      CapitalsExactly(u, Upper(u, p), p);
      forall v ensures InCapitals(u, v, p) <==> v == Upper(u, p) { CapitalsExactly(u, v, p); }
    }
  }

  lemma NamedBefore(steps: seq<StepSpec>, k: nat, name: string)
    requires k <= |steps|
    ensures name in Names(steps[..k]) <==> exists j :: 0 <= j < k && steps[j].name == name
  {
    if j :| 0 <= j < k && steps[j].name == name { assert steps[..k][j] == steps[j]; }
    if name in Names(steps[..k]) { var j :| 0 <= j < k && steps[..k][j].name == name; assert steps[j].name == name; }
  }

  lemma StepsExactly(steps: seq<StepSpec>, p: Parsers)
    ensures StepsOk(steps, p) <==>
              && (forall i :: 0 <= i < |steps| ==> StepFollowsRules(steps[i], p))
              && (forall i, j :: 0 <= i < j < |steps| ==> steps[i].name != steps[j].name)
  {
    forall i | 0 <= i < |steps|
      ensures StepOk(steps[i], Names(steps[..i]), p) <==>
              StepFollowsRules(steps[i], p) && forall j :: 0 <= j < i ==> steps[j].name != steps[i].name
    {
      StepExactly(steps[i], Names(steps[..i]), p);
      NamedBefore(steps, i, steps[i].name);
    }
  }

  lemma DepsExactly(steps: seq<StepSpec>)
    ensures DepsOk(steps) <==>
              forall i, d :: 0 <= i < |steps| && d in steps[i].deps ==> NamesOne(steps, d)
  {
    assert steps[..|steps|] == steps;
    forall i, d | 0 <= i < |steps| && d in steps[i].deps
      ensures d in Names(steps) <==> NamesOne(steps, d)
    {
      NamedBefore(steps, |steps|, d);
    }
  }

  /** The definitions that validation accepts are exactly those that follow the rules. */
  lemma AcceptableExactly(name: string, triggers: seq<TriggerSpec>, steps: seq<StepSpec>, p: Parsers)
    ensures Acceptable(name, triggers, steps, p) <==> FollowsRules(name, triggers, steps, p)
  {
    StepsExactly(steps, p);
    DepsExactly(steps);
  }

  // ---- Validation as the source does it ----

  /** The first k steps are acceptable and have been normalised, the others are untouched. */
  ghost predicate Progressed(was: seq<StepSpec>, now: seq<StepSpec>, k: nat, p: Parsers)
  {
    && k <= |was| == |now|
    && (forall i :: 0 <= i < k ==> StepOk(was[i], Names(was[..i]), p) && now[i] == Normal(was[i], p))
    && (forall i :: k <= i < |was| ==> now[i] == was[i])
  }

  /** Step k is the first that is not acceptable. */
  ghost predicate StuckAt(was: seq<StepSpec>, now: seq<StepSpec>, k: nat, p: Parsers)
  {
    k < |was| && Progressed(was, now, k, p) && !StepOk(was[k], Names(was[..k]), p)
  }

  /** The error names the first rule that the step breaks, in the order of the source. */
  predicate StepFault(e: Error, s: StepSpec, names: set<string>, p: Parsers, i: nat)
  {
    && (s.name == "" ==> e == StepNameRequired(i))
    && (s.name != "" ==>
          if !Safe(s.name) then e == UnsafeStepName(i)
          else if s.name in names then e == DuplicateStepName(i)
          else if s.trigger !in {"", "manual", "auto", "queueti", "http"} then e == UnknownStepTrigger(i)
          else if s.trigger == "queueti" then s.queueTiTopic == "" && e == QueueTiNeedsTopic(i)
          else s.trigger == "http" &&
               if s.http.None? || s.http.value.url == "" then e == HttpNeedsUrl(i)
               else if !p.url(s.http.value.url) then e == BadHttpUrl(i)
               else e == BadHttpMethod(i))
  }

  ghost predicate FirstFaulty(steps: seq<StepSpec>, k: nat, p: Parsers)
    requires k < |steps|
  {
    !StepOk(steps[k], Names(steps[..k]), p) && forall i :: 0 <= i < k ==> StepOk(steps[i], Names(steps[..i]), p)
  }

  /** The error names the first step that is not acceptable, and why it is not. */
  ghost predicate StepsFault(e: Error, steps: seq<StepSpec>, p: Parsers)
  {
    exists k :: 0 <= k < |steps| && FirstFaulty(steps, k, p) && StepFault(e, steps[k], Names(steps[..k]), p, k)
  }

  predicate TriggerFault(e: Error, t: TriggerSpec, p: Parsers, i: nat)
  {
    if t.kind == "cron" then (if t.schedule == "" then e == CronNeedsSchedule(i) else !p.schedule(t.schedule) && e == BadSchedule(i))
    else if t.kind == "queueti" then t.topic == "" && e == TriggerNeedsTopic(i)
    else if t.kind == "" then e == TriggerTypeRequired(i)
    else t.kind != "webhook" && e == UnknownTriggerType(i)
  }

  /** The error names the first trigger that lacks what its type needs. */
  ghost predicate TriggersFault(e: Error, triggers: seq<TriggerSpec>, p: Parsers)
  {
    exists k :: 0 <= k < |triggers| && TriggerFault(e, triggers[k], p, k)
                && forall i :: 0 <= i < k ==> TriggerOk(triggers[i], p)
  }

  predicate AllNamed(deps: seq<string>, names: set<string>)
  {
    forall d :: d in deps ==> d in names
  }

  /** The error names the first step that depends on no step. */
  ghost predicate DepsFault(e: Error, steps: seq<StepSpec>, names: set<string>)
  {
    exists k :: 0 <= k < |steps| && e == UnknownDependency(k) && !AllNamed(steps[k].deps, names)
                && forall i :: 0 <= i < k ==> AllNamed(steps[i].deps, names)
  }

  /** Fills in the defaults of step i. */
  method NormaliseStep(steps: array<StepSpec>, i: nat, p: Parsers)
    requires i < steps.Length && (steps[i].trigger == "http" ==> steps[i].http.Some?)
    modifies steps
    ensures steps[i] == Normal(old(steps[i]), p)
    ensures forall k :: 0 <= k < steps.Length && k != i ==> steps[k] == old(steps[k])
  {
    var s := steps[i];
    if s.trigger == "" {
      steps[i] := s.(trigger := "manual");
    } else if s.trigger == "http" && s.http.value.verb != "" {
      steps[i] := s.(http := Some(s.http.value.(verb := Upper(s.http.value.verb, p))));
    }
  }

  lemma NamesGrow(was: seq<StepSpec>, i: nat)
    requires i < |was|
    ensures Names(was[..i + 1]) == Names(was[..i]) + {was[i].name}
  {
    assert was[..i + 1] == was[..i] + [was[i]];
  }

  lemma AllProgressed(was: seq<StepSpec>, now: seq<StepSpec>, p: Parsers)
    requires Progressed(was, now, |was|, p)
    ensures StepsOk(was, p) && now == NormalAll(was, p) && was[..|was|] == was
  {
  }

  /** The checks on one step, in the order of the source. */
  method CheckStep(s: StepSpec, names: set<string>, p: Parsers, i: nat) returns (e: Option<Error>)
    ensures e.None? <==> StepOk(s, names, p)
    ensures e.Some? ==> StepFault(e.value, s, names, p, i)
  {
    if s.name == "" { return Some(StepNameRequired(i)); }
    if exists c :: c in s.name && c in URL_UNSAFE { return Some(UnsafeStepName(i)); }
    if s.name in names { return Some(DuplicateStepName(i)); }
    if s.trigger != "" && !KnownTrigger(s.trigger) { return Some(UnknownStepTrigger(i)); }
    if s.trigger == "queueti" && s.queueTiTopic == "" { return Some(QueueTiNeedsTopic(i)); }
    if s.trigger == "http" {
      if s.http.None? || s.http.value.url == "" { return Some(HttpNeedsUrl(i)); }
      if !p.url(s.http.value.url) { return Some(BadHttpUrl(i)); }
      if s.http.value.verb != "" && Upper(s.http.value.verb, p) !in HTTP_METHODS { return Some(BadHttpMethod(i)); }
    }
    return None;
  }

  /** Checks each step and normalises it in place. On an error the steps before the bad one
      have been normalised, the others are as they were. */
  method ValidateSteps(steps: array<StepSpec>, p: Parsers) returns (r: Result<set<string>>)
    modifies steps
    ensures r.Ok? <==> StepsOk(old(steps[..]), p)
    ensures r.Ok? ==> r.value == Names(old(steps[..])) && steps[..] == NormalAll(old(steps[..]), p)
    ensures r.Ok? ==> AllDefaulted(old(steps[..]), steps[..], p)
    ensures r.Err? ==> StepsFault(r.error, old(steps[..]), p)
    ensures r.Err? ==> exists k :: StuckAt(old(steps[..]), steps[..], k, p)
  {
    ghost var was := steps[..];
    var names: set<string> := {};
    var i := 0;
    while i < steps.Length
      invariant 0 <= i <= steps.Length
      invariant names == Names(was[..i])
      invariant Progressed(was, steps[..], i, p)
    {
      var e := CheckStep(steps[i], names, p, i);
      if e.Some? {
        assert StuckAt(was, steps[..], i, p) && FirstFaulty(was, i, p);
        return Err(e.value);
      }
      NamesGrow(was, i);
      names := names + {steps[i].name};
      NormaliseStep(steps, i, p);
      i := i + 1;
    }
    AllProgressed(was, steps[..], p);
    NormalDefaults(was, p);
    r := Ok(names);
  }

  method ValidateTriggers(triggers: seq<TriggerSpec>, p: Parsers) returns (e: Option<Error>)
    ensures e.None? <==> forall t :: t in triggers ==> TriggerOk(t, p)
    ensures e.Some? ==> TriggersFault(e.value, triggers, p)
  {
    var i := 0;
    while i < |triggers|
      invariant 0 <= i <= |triggers|
      invariant forall k :: 0 <= k < i ==> TriggerOk(triggers[k], p)
    {
      var t := triggers[i];
      assert t in triggers;
      if t.kind == "cron" {
        if t.schedule == "" { return Some(CronNeedsSchedule(i)); }
        if !p.schedule(t.schedule) { return Some(BadSchedule(i)); }
      } else if t.kind == "webhook" {
      } else if t.kind == "queueti" {
        if t.topic == "" { return Some(TriggerNeedsTopic(i)); }
      } else if t.kind == "" {
        return Some(TriggerTypeRequired(i));
      } else {
        return Some(UnknownTriggerType(i));
      }
      i := i + 1;
    }
    return None;
  }

  method ValidateStepDependencies(steps: array<StepSpec>, names: set<string>) returns (e: Option<Error>)
    ensures e.None? <==> forall i, d :: 0 <= i < steps.Length && d in steps[i].deps ==> d in names
    ensures e.Some? ==> DepsFault(e.value, steps[..], names)
  {
    var i := 0;
    while i < steps.Length
      invariant 0 <= i <= steps.Length
      invariant forall k :: 0 <= k < i ==> AllNamed(steps[..][k].deps, names)
      invariant forall k, d :: 0 <= k < i && d in steps[k].deps ==> d in names
    {
      var j := 0;
      while j < |steps[i].deps|
        invariant 0 <= j <= |steps[i].deps|
        invariant forall k :: 0 <= k < j ==> steps[i].deps[k] in names
      {
        if steps[i].deps[j] !in names { return Some(UnknownDependency(i)); }
        j := j + 1;
      }
      i := i + 1;
    }
    return None;
  }

  /** Accepts exactly the acceptable definitions and leaves their steps normalised. */
  method Validate(name: string, triggers: seq<TriggerSpec>, steps: array<StepSpec>, p: Parsers)
    returns (e: Option<Error>)
    modifies steps
    ensures e.None? <==> Acceptable(name, triggers, old(steps[..]), p)
    ensures e.None? ==> steps[..] == NormalAll(old(steps[..]), p)
    ensures e.None? <==> FollowsRules(name, triggers, old(steps[..]), p)
    ensures e.None? ==> AllDefaulted(old(steps[..]), steps[..], p)
    ensures e.Some? ==>
              if name == "" then e.value == NameRequired
              else || TriggersFault(e.value, triggers, p)
                   || ((forall t :: t in triggers ==> TriggerOk(t, p)) &&
                       (StepsFault(e.value, old(steps[..]), p) ||
                        (StepsOk(old(steps[..]), p) && DepsFault(e.value, old(steps[..]), Names(old(steps[..]))))))
  {
    AcceptableExactly(name, triggers, steps[..], p);
    if name == "" { return Some(NameRequired); }
    e := ValidateTriggers(triggers, p);
    if e.Some? { return; }
    var names := ValidateSteps(steps, p);
    if names.Err? { return Some(names.error); }
    assert forall i :: 0 <= i < steps.Length ==> steps[..][i].deps == old(steps[..])[i].deps;
    e := ValidateStepDependencies(steps, names.value);
  }

  // ---- What success means ----

  /** What the engine relies on. */
  predicate EngineReady(steps: seq<StepSpec>, p: Parsers)
  {
    && (forall i, j :: 0 <= i < j < |steps| ==> steps[i].name != steps[j].name)
    && (forall s :: s in steps ==> s.name != "" && Safe(s.name) && KnownTrigger(s.trigger))
    && DepsOk(steps)
    && (forall s :: s in steps && s.trigger == "queueti" ==> s.queueTiTopic != "")
    && (forall s :: s in steps && s.trigger == "http" ==>
          && s.http.Some? && s.http.value.url != "" && p.url(s.http.value.url)
          && (s.http.value.verb == "" || s.http.value.verb in HTTP_METHODS))
  }

  /** A recognised method is in upper case. */
  lemma UpperIdempotent(s: string, p: Parsers)
    requires Upper(s, p) in HTTP_METHODS
    ensures Upper(Upper(s, p), p) == Upper(s, p)
  {
    forall m | m in HTTP_METHODS ensures Upper(m, p) == m {
      assert forall i :: 0 <= i < |m| ==> UpperChar(m[i], p) == m[i];
    }
  }

  lemma NormalKeeps(s: StepSpec, names: set<string>, p: Parsers)
    requires StepOk(s, names, p)
    ensures StepOk(Normal(s, p), names, p) && Normal(Normal(s, p), p) == Normal(s, p)
  {
    if s.trigger == "http" && s.http.value.verb != "" { UpperIdempotent(s.http.value.verb, p); }
  }

  lemma NormalNames(steps: seq<StepSpec>, k: nat, p: Parsers)
    requires k <= |steps|
    ensures Names(NormalAll(steps, p)[..k]) == Names(steps[..k])
  {
    var a, b := NormalAll(steps, p)[..k], steps[..k];
    forall n ensures n in Names(a) <==> n in Names(b) {
      if n in Names(a) { var i :| 0 <= i < |a| && a[i].name == n; assert b[i].name == n; }
      if n in Names(b) { var i :| 0 <= i < |b| && b[i].name == n; assert a[i].name == n; }
    }
  }

  /** A second validation succeeds and changes nothing. */
  lemma ValidateTwice(name: string, triggers: seq<TriggerSpec>, steps: seq<StepSpec>, p: Parsers)
    requires Acceptable(name, triggers, steps, p)
    ensures Acceptable(name, triggers, NormalAll(steps, p), p)
    ensures NormalAll(NormalAll(steps, p), p) == NormalAll(steps, p)
  {
    var n := NormalAll(steps, p);
    forall i | 0 <= i < |n| ensures StepOk(n[i], Names(n[..i]), p) && Normal(n[i], p) == n[i] {
      NormalNames(steps, i, p);
      NormalKeeps(steps[i], Names(steps[..i]), p);
    }
    NormalNames(steps, |steps|, p);
    assert n[..|steps|] == n && steps[..|steps|] == steps;
  }

  /** Successful validation establishes what the engine relies on. */
  lemma ValidationSuffices(name: string, triggers: seq<TriggerSpec>, steps: seq<StepSpec>, p: Parsers)
    requires Acceptable(name, triggers, steps, p)
    ensures EngineReady(NormalAll(steps, p), p)
  {
    var n := NormalAll(steps, p);
    ValidateTwice(name, triggers, steps, p);
    forall i, j | 0 <= i < j < |n| ensures n[i].name != n[j].name {
      assert StepOk(n[j], Names(n[..j]), p);
      assert n[..j][i] == n[i];
    }
    forall s | s in n
      ensures s.name != "" && Safe(s.name) && KnownTrigger(s.trigger) && HasFields(s, p)
      ensures s.trigger == "http" && s.http.value.verb != "" ==> s.http.value.verb in HTTP_METHODS
    {
      var i :| 0 <= i < |n| && n[i] == s;
      assert StepOk(n[i], Names(n[..i]), p);
      if s.trigger == "http" && s.http.value.verb != "" { UpperIdempotent(steps[i].http.value.verb, p); }
    }
  }
}
