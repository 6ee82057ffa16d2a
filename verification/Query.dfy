/** The query that lists instances: a condition list with numbered placeholders, grown branch
    by branch together with the positional arguments. */
module Query {
  import opened Types

  /** Microseconds since the epoch, the precision of the database. */
  type Time = int

  /** Midnight of the first of January of the year one: a time that was not set. */
  const ZERO_TIME: Time := -62_135_596_800_000_000

  /** An instance row; the identifier is the key of the table. */
  datatype Info = Info(created: Time, workflow: string, status: string)

  type Instances = map<nat, Info>

  datatype Cursor = Cursor(time: Time, id: nat)

  /** Empty fields do not filter. The cursor counts only if both parts are there. */
  datatype Filter = Filter(
    statuses: seq<string>,
    workflow: string,
    after: Time,
    before: Time,
    limit: int,
    cursorTime: Option<Time>,
    cursorId: Option<nat>)

  datatype Value = Str(s: string) | Stamp(t: Time) | Id(n: nat) | Count(k: int)

  /** Conditions; each number is a placeholder `$n`. */
  datatype Cond =
    | StatusIn(places: seq<nat>)
    | WorkflowIs(place: nat)
    | CreatedFrom(place: nat)
    | CreatedUpTo(place: nat)
    | OlderThan(first: nat, second: nat, third: nat)  // created_at < $first OR (created_at = $second AND id < $third)

  datatype Sql = Sql(conds: seq<Cond>, limit: Option<nat>, args: seq<Value>)

  // ---- What the database makes of it ----

  /** The argument bound to a placeholder. */
  function Arg(args: seq<Value>, place: nat): Option<Value>
  {
    if 1 <= place <= |args| then Some(args[place - 1]) else None
  }

  predicate Satisfies(c: Cond, args: seq<Value>, id: nat, r: Info)
  {
    match c
    case StatusIn(places) => exists p :: p in places && Arg(args, p) == Some(Str(r.status))
    case WorkflowIs(p) => Arg(args, p) == Some(Str(r.workflow))
    case CreatedFrom(p) => (match Arg(args, p) case Some(Stamp(t)) => r.created >= t case _ => false)
    case CreatedUpTo(p) => (match Arg(args, p) case Some(Stamp(t)) => r.created <= t case _ => false)
    case OlderThan(p, q, o) =>
      || (match Arg(args, p) case Some(Stamp(t)) => r.created < t case _ => false)
      || (Arg(args, q) == Some(Stamp(r.created)) && (match Arg(args, o) case Some(Id(n)) => id < n case _ => false))
  }

  predicate Selects(conds: seq<Cond>, args: seq<Value>, id: nat, r: Info)
  {
    forall i :: 0 <= i < |conds| ==> Satisfies(conds[i], args, id, r)
  }

  // ---- What the filter means ----

  predicate Older(id: nat, created: Time, c: Cursor)
  {
    created < c.time || (created == c.time && id < c.id)
  }

  predicate Matches(f: Filter, id: nat, r: Info)
  {
    && (f.statuses != [] ==> r.status in f.statuses)
    && (f.workflow != "" ==> r.workflow == f.workflow)
    && (f.after != ZERO_TIME ==> f.after <= r.created)
    && (f.before != ZERO_TIME ==> r.created <= f.before)
    && (f.cursorTime.Some? && f.cursorId.Some? ==> Older(id, r.created, Cursor(f.cursorTime.value, f.cursorId.value)))
  }

  /** The first k parts of the filter. */
  function Part(f: Filter, k: nat): Filter
  {
    Filter(
      f.statuses,
      if k >= 2 then f.workflow else "",
      if k >= 3 then f.after else ZERO_TIME,
      if k >= 4 then f.before else ZERO_TIME,
      f.limit,
      if k >= 5 then f.cursorTime else None,
      f.cursorId)
  }

  // ---- Placeholders ----

  function Places(c: Cond): seq<nat>
  {
    match c
    case StatusIn(places) => places
    case OlderThan(p, q, o) => [p, q, o]
    case _ => [c.place]
  }

  /** The placeholders in the order in which they stand in the text. */
  function AllPlaces(conds: seq<Cond>): seq<nat>
  {
    if conds == [] then [] else AllPlaces(conds[..|conds| - 1]) + Places(conds[|conds| - 1])
  }

  /** The placeholders are 1, 2, 3, ..., one for each argument. */
  predicate Numbered(places: seq<nat>, args: seq<Value>)
  {
    |places| == |args| && forall i :: 0 <= i < |places| ==> places[i] == i + 1
  }

  /** Every condition has its placeholders bound. */
  predicate Bound(conds: seq<Cond>, args: seq<Value>)
  {
    forall i, p :: 0 <= i < |conds| && p in Places(conds[i]) ==> 1 <= p <= |args|
  }

  /** Arguments added behind change no bound condition. */
  lemma SatisfiesStill(c: Cond, args: seq<Value>, more: seq<Value>, id: nat, r: Info)
    requires forall p :: p in Places(c) ==> 1 <= p <= |args|
    ensures Satisfies(c, args + more, id, r) <==> Satisfies(c, args, id, r)
  {
    forall p | p in Places(c) ensures Arg(args + more, p) == Arg(args, p) {}
    match c
    case StatusIn(places) =>
    case WorkflowIs(p) => assert p in Places(c);
    case CreatedFrom(p) => assert p in Places(c);
    case CreatedUpTo(p) => assert p in Places(c);
    case OlderThan(p, q, o) => assert p in Places(c) && q in Places(c) && o in Places(c);
  }

  /** What the parts built so far satisfy: the next placeholder is one more than the number
      of arguments, every placeholder is bound to its own argument, and the conditions mean
      what the filter means. */
  ghost predicate Built(conds: seq<Cond>, args: seq<Value>, n: nat, f: Filter)
  {
    && n == |args| + 1 && Bound(conds, args) && Numbered(AllPlaces(conds), args)
    && forall id: nat, r: Info :: Selects(conds, args, id, r) <==> Matches(f, id, r)
  }

  lemma SelectsOneMore(conds: seq<Cond>, c: Cond, args: seq<Value>, id: nat, r: Info)
    ensures Selects(conds + [c], args, id, r) <==> Selects(conds, args, id, r) && Satisfies(c, args, id, r)
  {
    var conds' := conds + [c];
    assert forall i :: 0 <= i < |conds| ==> conds'[i] == conds[i];
    if Selects(conds', args, id, r) {
      assert Satisfies(conds'[|conds|], args, id, r);
      forall i | 0 <= i < |conds| ensures Satisfies(conds[i], args, id, r) { assert Satisfies(conds'[i], args, id, r); }
    }
  }

  lemma SelectsStill(conds: seq<Cond>, args: seq<Value>, more: seq<Value>, id: nat, r: Info)
    requires Bound(conds, args)
    ensures Selects(conds, args + more, id, r) <==> Selects(conds, args, id, r)
  {
    forall i | 0 <= i < |conds| ensures Satisfies(conds[i], args + more, id, r) <==> Satisfies(conds[i], args, id, r) {
      SatisfiesStill(conds[i], args, more, id, r);
    }
  }

  /** One more condition with its arguments. */
  lemma Extended(conds: seq<Cond>, args: seq<Value>, n: nat, f: Filter, c: Cond, more: seq<Value>, f': Filter)
    requires Built(conds, args, n, f)
    requires |Places(c)| == |more| && forall i :: 0 <= i < |more| ==> Places(c)[i] == n + i
    requires forall id: nat, r: Info :: Matches(f', id, r) <==> Matches(f, id, r) && Satisfies(c, args + more, id, r)
    ensures Built(conds + [c], args + more, n + |more|, f')
  {
    assert (conds + [c])[..|conds|] == conds;
    forall id: nat, r: Info ensures Selects(conds + [c], args + more, id, r) <==> Matches(f', id, r) {
      SelectsStill(conds, args, more, id, r);
      SelectsOneMore(conds, c, args + more, id, r);
    }
  }

  function Statuses(statuses: seq<string>): (r: seq<Value>)
    ensures |r| == |statuses| && forall i :: 0 <= i < |r| ==> r[i] == Str(statuses[i])
  {
    seq(|statuses|, i requires 0 <= i < |statuses| => Str(statuses[i]))
  }

  /** The status list binds exactly the wanted statuses. */
  lemma StatusesListed(statuses: seq<string>, args: seq<Value>, places: seq<nat>, n: nat)
    requires n == |args| + 1 && |places| == |statuses| && forall k :: 0 <= k < |places| ==> places[k] == n + k
    ensures forall id: nat, r: Info :: Satisfies(StatusIn(places), args + Statuses(statuses), id, r) <==> r.status in statuses
  {
    var args' := args + Statuses(statuses);
    forall id: nat, r: Info ensures Satisfies(StatusIn(places), args', id, r) <==> r.status in statuses {
      forall k | 0 <= k < |places| ensures Arg(args', places[k]) == Some(Str(statuses[k])) {}
      if r.status in statuses {
        var k :| 0 <= k < |statuses| && statuses[k] == r.status;
        assert places[k] in places;
      }
    }
  }

  lemma WithStatuses(f: Filter, places: seq<nat>)
    requires f.statuses != [] && |places| == |f.statuses| && forall k :: 0 <= k < |places| ==> places[k] == k + 1
    ensures Built([StatusIn(places)], Statuses(f.statuses), |f.statuses| + 1, Part(f, 1))
  {
    var none := Part(f, 1).(statuses := []);
    assert [] + Statuses(f.statuses) == Statuses(f.statuses) && [] + [StatusIn(places)] == [StatusIn(places)];
    StatusesListed(f.statuses, [], places, 1);
    Extended([], [], 1, none, StatusIn(places), Statuses(f.statuses), Part(f, 1));
  }

  lemma WithWorkflow(conds: seq<Cond>, args: seq<Value>, n: nat, f: Filter)
    requires Built(conds, args, n, Part(f, 1))
    ensures if f.workflow == "" then Built(conds, args, n, Part(f, 2))
            else Built(conds + [WorkflowIs(n)], args + [Str(f.workflow)], n + 1, Part(f, 2))
  {
    if f.workflow != "" { Extended(conds, args, n, Part(f, 1), WorkflowIs(n), [Str(f.workflow)], Part(f, 2)); }
  }

  lemma WithAfter(conds: seq<Cond>, args: seq<Value>, n: nat, f: Filter)
    requires Built(conds, args, n, Part(f, 2))
    ensures if f.after == ZERO_TIME then Built(conds, args, n, Part(f, 3))
            else Built(conds + [CreatedFrom(n)], args + [Stamp(f.after)], n + 1, Part(f, 3))
  {
    if f.after != ZERO_TIME { Extended(conds, args, n, Part(f, 2), CreatedFrom(n), [Stamp(f.after)], Part(f, 3)); }
  }

  lemma WithBefore(conds: seq<Cond>, args: seq<Value>, n: nat, f: Filter)
    requires Built(conds, args, n, Part(f, 3))
    ensures if f.before == ZERO_TIME then Built(conds, args, n, Part(f, 4))
            else Built(conds + [CreatedUpTo(n)], args + [Stamp(f.before)], n + 1, Part(f, 4))
  {
    if f.before != ZERO_TIME { Extended(conds, args, n, Part(f, 3), CreatedUpTo(n), [Stamp(f.before)], Part(f, 4)); }
  }

  lemma WithCursor(conds: seq<Cond>, args: seq<Value>, n: nat, f: Filter)
    requires Built(conds, args, n, Part(f, 4))
    ensures if f.cursorTime.None? || f.cursorId.None? then Built(conds, args, n, f)
            else var t, i := f.cursorTime.value, f.cursorId.value;
                 Built(conds + [OlderThan(n, n + 1, n + 2)], args + [Stamp(t), Stamp(t), Id(i)], n + 3, f)
  {
    if f.cursorTime.Some? && f.cursorId.Some? {
      var t, i := f.cursorTime.value, f.cursorId.value;
      Extended(conds, args, n, Part(f, 4), OlderThan(n, n + 1, n + 2), [Stamp(t), Stamp(t), Id(i)], f);
    }
  }

  /** The conditions select exactly the rows that the filter means; the placeholders, with
      that of the limit last, are 1, 2, 3, ..., one for each argument; and a positive limit is
      bound to its argument. */
  ghost predicate Means(q: Sql, f: Filter)
  {
    && (forall id: nat, r: Info :: Selects(q.conds, q.args, id, r) <==> Matches(f, id, r))
    && Numbered(AllPlaces(q.conds) + (if q.limit.Some? then [q.limit.value] else []), q.args)
    && (q.limit.Some? <==> f.limit > 0)
    && (q.limit.Some? ==> Arg(q.args, q.limit.value) == Some(Count(f.limit)))
  }

  lemma WithoutLimit(conds: seq<Cond>, args: seq<Value>, n: nat, f: Filter)
    requires Built(conds, args, n, f) && f.limit <= 0
    ensures Means(Sql(conds, None, args), f)
  {
    assert AllPlaces(conds) + [] == AllPlaces(conds);
  }

  lemma WithLimit(conds: seq<Cond>, args: seq<Value>, n: nat, f: Filter)
    requires Built(conds, args, n, f) && f.limit > 0
    ensures Means(Sql(conds, Some(n), args + [Count(f.limit)]), f)
  {
    forall id: nat, r: Info
      ensures Selects(conds, args + [Count(f.limit)], id, r) <==> Matches(f, id, r)
    {
      SelectsStill(conds, args, [Count(f.limit)], id, r);
    }
  }

  /** The rows that such a query selects: with one of the statuses, of the workflow, created
      within the bounds that are set, and behind the cursor. */
  lemma SelectsExactly(q: Sql, f: Filter, id: nat, r: Info)
    requires Means(q, f)
    ensures Selects(q.conds, q.args, id, r) <==>
              && (f.statuses != [] ==> r.status in f.statuses)
              && (f.workflow != "" ==> r.workflow == f.workflow)
              && (f.after != -62_135_596_800_000_000 ==> f.after <= r.created)
              && (f.before != -62_135_596_800_000_000 ==> r.created <= f.before)
              && (f.cursorTime.Some? && f.cursorId.Some? ==>
                    || r.created < f.cursorTime.value
                    || (r.created == f.cursorTime.value && id < f.cursorId.value))
  {
    assert Selects(q.conds, q.args, id, r) <==> Matches(f, id, r);
  }

  // ---- Building it, as the source does ----

  method BuildQuery(f: Filter) returns (q: Sql)
    ensures Means(q, f)
  {
    var conds: seq<Cond>, args: seq<Value>, n: nat := [], [], 1;
    if |f.statuses| > 0 {
      var places: seq<nat> := [];
      var i := 0;
      while i < |f.statuses|
        invariant 0 <= i <= |f.statuses|
        invariant |places| == i && n == i + 1 && forall k :: 0 <= k < i ==> places[k] == k + 1
        invariant args == Statuses(f.statuses[..i])
      {
        places := places + [n];
        assert f.statuses[..i + 1] == f.statuses[..i] + [f.statuses[i]];
        args := args + [Str(f.statuses[i])];
        n := n + 1;
        i := i + 1;
      }
      assert f.statuses[..i] == f.statuses;
      WithStatuses(f, places);
      conds := [StatusIn(places)];
    }
    WithWorkflow(conds, args, n, f);
    if f.workflow != "" {
      conds, args, n := conds + [WorkflowIs(n)], args + [Str(f.workflow)], n + 1;
    }
    WithAfter(conds, args, n, f);
    if f.after != ZERO_TIME {
      conds, args, n := conds + [CreatedFrom(n)], args + [Stamp(f.after)], n + 1;
    }
    WithBefore(conds, args, n, f);
    if f.before != ZERO_TIME {
      conds, args, n := conds + [CreatedUpTo(n)], args + [Stamp(f.before)], n + 1;
    }
    WithCursor(conds, args, n, f);
    if f.cursorTime.Some? && f.cursorId.Some? {
      var t, i := f.cursorTime.value, f.cursorId.value;
      conds, args, n := conds + [OlderThan(n, n + 1, n + 2)], args + [Stamp(t), Stamp(t), Id(i)], n + 3;
    }
    if f.limit > 0 {
      WithLimit(conds, args, n, f);
      return Sql(conds, Some(n), args + [Count(f.limit)]);
    }
    WithoutLimit(conds, args, n, f);
    return Sql(conds, None, args);
  }
}
