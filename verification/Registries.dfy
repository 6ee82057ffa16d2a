/** The registry of workflow definitions and its reload. */
module Registries {
  import opened Types
  import opened Definition

  /** A file of the definitions directory: not readable as a definition, or a definition that
      is still to be validated. */
  datatype File = Unreadable | Parsed(w: Workflow)

  /** What a valid definition becomes when it is loaded. */
  function Loaded(w: Workflow, p: Parsers): Workflow
  {
    w.(steps := NormalAll(w.steps, p))
  }

  /** The loaded definition is that of the file, with the defaults of its steps filled in. */
  predicate FromFile(w: Workflow, loaded: Workflow, p: Parsers)
  {
    loaded.name == w.name && loaded.triggers == w.triggers && AllDefaulted(w.steps, loaded.steps, p)
  }

  predicate Good(f: File, p: Parsers)
  {
    f.Parsed? && Acceptable(f.w.name, f.w.triggers, f.w.steps, p)
  }

  /** The workflows of the first k files. */
  function NamesIn(files: seq<File>, k: nat): set<string>
    requires k <= |files|
  {
    set i | 0 <= i < k && files[i].Parsed? :: files[i].w.name
  }

  /** Every file is good and no two define the same workflow. */
  predicate AllGood(files: seq<File>, k: nat, p: Parsers)
    requires k <= |files|
  {
    forall i :: 0 <= i < k ==> Good(files[i], p) && files[i].w.name !in NamesIn(files, i)
  }

  /** Every file can be read and follows the rules, and no two define the same workflow. */
  predicate AllFollowRules(files: seq<File>, p: Parsers)
  {
    && (forall i :: 0 <= i < |files| ==>
          files[i].Parsed? && FollowsRules(files[i].w.name, files[i].w.triggers, files[i].w.steps, p))
    && (forall i, j :: 0 <= i < j < |files| ==> files[i].w.name != files[j].w.name)
  }

  lemma AllGoodExactly(files: seq<File>, p: Parsers)
    ensures AllGood(files, |files|, p) <==> AllFollowRules(files, p)
  {
    forall i | 0 <= i < |files| && files[i].Parsed?
      ensures Good(files[i], p) <==> FollowsRules(files[i].w.name, files[i].w.triggers, files[i].w.steps, p)
    {
      AcceptableExactly(files[i].w.name, files[i].w.triggers, files[i].w.steps, p);
    }
    if AllGood(files, |files|, p) {
      forall i, j | 0 <= i < j < |files| ensures files[i].w.name != files[j].w.name {
        assert Good(files[i], p) && Good(files[j], p) && files[i].w.name in NamesIn(files, j);
      }
    }
  }

  /** The map holds exactly the workflows of the first k files. */
  ghost predicate LoadedFrom(m: map<string, Workflow>, files: seq<File>, k: nat, p: Parsers)
    requires k <= |files|
  {
    && (forall i :: 0 <= i < k ==> files[i].Parsed? && files[i].w.name in m && m[files[i].w.name] == Loaded(files[i].w, p))
    && (forall n :: n in m ==> exists i :: 0 <= i < k && files[i].Parsed? && files[i].w.name == n)
  }

  /** The sequence lists every value of the map once, in any order. */
  ghost predicate Enumerates(out: seq<Workflow>, m: map<string, Workflow>)
  {
    && (forall i :: 0 <= i < |out| ==> out[i].name in m && m[out[i].name] == out[i])
    && (forall n :: n in m ==> exists i :: 0 <= i < |out| && out[i].name == n)
    && (forall i, j :: 0 <= i < j < |out| ==> out[i].name != out[j].name)
  }

  /** One call of a reload hook. */
  datatype HookCall = HookCall(hook: nat, defs: seq<Workflow>)

  function CallsOf(hooks: seq<nat>, defs: seq<Workflow>): (r: seq<HookCall>)
    ensures |r| == |hooks| && forall i :: 0 <= i < |r| ==> r[i] == HookCall(hooks[i], defs)
  {
    seq(|hooks|, i requires 0 <= i < |hooks| => HookCall(hooks[i], defs))
  }

  /** Reads and validates one file. */
  method ParseFile(f: File, p: Parsers) returns (r: Option<Workflow>)
    ensures r.Some? <==> Good(f, p)
    ensures r.Some? ==> r.value == Loaded(f.w, p)
    ensures r.Some? <==> f.Parsed? && FollowsRules(f.w.name, f.w.triggers, f.w.steps, p)
    ensures r.Some? ==> FromFile(f.w, r.value, p)
  {
    if f.Unreadable? { return None; }
    var steps := new StepSpec[|f.w.steps|](i requires 0 <= i < |f.w.steps| => f.w.steps[i]);
    assert steps[..] == f.w.steps;
    var e := Validate(f.w.name, f.w.triggers, steps, p);
    r := if e.Some? then None else Some(f.w.(steps := steps[..]));
  }

  lemma AllFromFiles(m: map<string, Workflow>, files: seq<File>, p: Parsers)
    requires LoadedFrom(m, files, |files|, p)
    ensures forall i :: 0 <= i < |files| ==> files[i].w.name in m && FromFile(files[i].w, m[files[i].w.name], p)
  {
    forall i | 0 <= i < |files| ensures files[i].w.name in m && FromFile(files[i].w, m[files[i].w.name], p) {
      NormalDefaults(files[i].w.steps, p);
    }
  }

  /** A good file is accepted exactly when its workflow is not there yet. */
  lemma OneMoreFile(m: map<string, Workflow>, files: seq<File>, i: nat, p: Parsers)
    requires i < |files| && LoadedFrom(m, files, i, p) && files[i].Parsed?
    ensures m.Keys == NamesIn(files, i)
    ensures files[i].w.name !in m ==> LoadedFrom(m[files[i].w.name := Loaded(files[i].w, p)], files, i + 1, p)
  {
    var name := files[i].w.name;
    var m' := m[name := Loaded(files[i].w, p)];
    forall n | n in m' ensures exists j :: 0 <= j < i + 1 && files[j].Parsed? && files[j].w.name == n {
      if n == name {
        assert files[i].Parsed?;
      } else {
        var j :| 0 <= j < i && files[j].Parsed? && files[j].w.name == n;
      }
    }
  }

  /** Reads and validates all files, up to the first that is not good or whose workflow was
      defined before. */
  method ParseAll(files: seq<File>, p: Parsers) returns (ok: bool, loaded: map<string, Workflow>)
    ensures ok <==> AllGood(files, |files|, p)
    ensures ok ==> LoadedFrom(loaded, files, |files|, p)
  {
    loaded := map[];
    var i := 0;
    while i < |files|
      invariant 0 <= i <= |files|
      invariant AllGood(files, i, p) && LoadedFrom(loaded, files, i, p)
    {
      var def := ParseFile(files[i], p);
      if def.None? { return false, loaded; }
      OneMoreFile(loaded, files, i, p);
      if def.value.name in loaded { return false, loaded; }
      loaded := loaded[def.value.name := def.value];
      i := i + 1;
    }
    return true, loaded;
  }

  /** The definition is as loading leaves it. */
  predicate Normalised(w: Workflow, p: Parsers)
  {
    Acceptable(w.name, w.triggers, w.steps, p) && NormalAll(w.steps, p) == w.steps
  }

  lemma AllReady(m: map<string, Workflow>, files: seq<File>, p: Parsers)
    requires AllGood(files, |files|, p) && LoadedFrom(m, files, |files|, p)
    ensures forall n :: n in m ==> m[n].name == n && Normalised(m[n], p)
  {
    forall n | n in m ensures m[n].name == n && Normalised(m[n], p) {
      var i :| 0 <= i < |files| && files[i].Parsed? && files[i].w.name == n;
      ValidateTwice(files[i].w.name, files[i].w.triggers, files[i].w.steps, p);
    }
  }

  /** The values of a map, in the order in which the iteration happens to find them. */
  method Values(m: map<string, Workflow>) returns (out: seq<Workflow>)
    requires forall n :: n in m ==> m[n].name == n
    ensures Enumerates(out, m)
  {
    out := [];
    var left := m.Keys;
    while left != {}
      invariant left <= m.Keys
      invariant forall i :: 0 <= i < |out| ==> out[i].name in m && m[out[i].name] == out[i] && out[i].name !in left
      invariant forall n :: n in m && n !in left ==> exists i :: 0 <= i < |out| && out[i].name == n
      invariant forall i, j :: 0 <= i < j < |out| ==> out[i].name != out[j].name
      decreases |left|
    {
      var n :| n in left;
      ghost var was := out;
      out := out + [m[n]];
      left := left - {n};
      assert out[|was|].name == n && forall i :: 0 <= i < |was| ==> out[i] == was[i];
    }
  }

  class Registry {
    const parsers: Parsers
    var definitions: map<string, Workflow>
    var hooks: seq<nat>
    var calls: seq<HookCall>

    /** Every definition is stored under its name, is acceptable and is normalised. */
    ghost predicate Valid()
      reads this
    {
      forall n :: n in definitions ==> definitions[n].name == n && Normalised(definitions[n], parsers)
    }

    constructor (p: Parsers)
      ensures Valid() && definitions == map[] && hooks == [] && calls == [] && parsers == p
    {
      parsers, definitions, hooks, calls := p, map[], [], [];
    }

    method AddReloadHook(hook: nat)
      modifies this`hooks
      ensures hooks == old(hooks) + [hook]
    {
      hooks := hooks + [hook];
    }

    method CallHooks(defs: seq<Workflow>)
      modifies this`calls
      ensures calls == old(calls) + CallsOf(hooks, defs)
    {
      var i := 0;
      while i < |hooks|
        invariant 0 <= i <= |hooks|
        invariant calls == old(calls) + CallsOf(hooks[..i], defs)
      {
        calls := calls + [HookCall(hooks[i], defs)];
        assert CallsOf(hooks[..i + 1], defs) == CallsOf(hooks[..i], defs) + [HookCall(hooks[i], defs)];
        i := i + 1;
      }
      assert hooks[..i] == hooks;
    }

    /** All or nothing: either every file is good and together they replace the definitions,
        whereupon each hook is called once with all of them, or nothing changes. */
    method Load(files: seq<File>) returns (ok: bool)
      requires Valid()
      modifies this`definitions, this`calls
      ensures Valid()
      ensures ok <==> AllGood(files, |files|, parsers)
      ensures !ok ==> definitions == old(definitions) && calls == old(calls)
      ensures ok ==> LoadedFrom(definitions, files, |files|, parsers)
      ensures ok <==> AllFollowRules(files, parsers)
      ensures ok ==> forall i :: 0 <= i < |files| ==>
                files[i].w.name in definitions && FromFile(files[i].w, definitions[files[i].w.name], parsers)
      ensures ok ==> exists defs :: Enumerates(defs, definitions) && calls == old(calls) + CallsOf(hooks, defs)
    {
      var loaded;
      ok, loaded := ParseAll(files, parsers);
      AllGoodExactly(files, parsers);
      if !ok { return; }
      AllFromFiles(loaded, files, parsers);
      AllReady(loaded, files, parsers);
      var defs := Values(loaded);
      definitions := loaded;
      CallHooks(defs);
    }

    method Get(name: string) returns (r: Option<Workflow>)
      ensures r == if name in definitions then Some(definitions[name]) else None
    {
      r := if name in definitions then Some(definitions[name]) else None;
    }

    method List() returns (out: seq<Workflow>)
      requires Valid()
      ensures Enumerates(out, definitions)
    {
      out := Values(definitions);
    }
  }
}
