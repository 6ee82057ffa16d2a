/** Overlapping triggers of one step can break the data flow: a concrete run. */
module Overlap {
  import opened Types
  import opened Protocol
  import opened DataFlow

  const FIRST := Text("x")
  const SECOND := Text("y")

  /** A manual step "a" and an auto step "b" that depends on it. */
  function TwoSteps(): (cfg: Config)
    ensures cfg.Valid()
  {
    var cfg := Config(
      ["a", "b"],
      map["a" := StepDef(Manual, [], Absent, ""), "b" := StepDef(Auto, ["a"], Absent, "")],
      false);
    assert "a"[0] == 'a' && "b"[0] == 'b';
    cfg
  }

  function Go(i: nat): Label
  {
    Act(i, Success(Absent))
  }

  /** The row of "a" while it waits. */
  function WaitingRow(): Row
  {
    ClaimRow(FreshRow(), WaitingManual, Absent, 0)
  }

  lemma Extend(ls: seq<Label>, l: Label) returns (ls': seq<Label>)
    requires CrashFree(ls) && !l.Crash?
    ensures ls' == ls + [l] && CrashFree(ls')
    ensures Reached(TwoSteps(), ls') == Apply(TwoSteps(), Reached(TwoSteps(), ls), l)
  {
    ls' := ls + [l];
    assert ls'[..|ls|] == ls;
  }

  /** The table while "a" has row a and "b" has not been claimed. */
  function Rows(a: Row): Table
  {
    map["a" := a, "b" := FreshRow()]
  }

  /** What the proof keeps track of after a run. */
  ghost predicate LeadsTo(ls: seq<Label>, rows: Table, calls: seq<Pc>)
  {
    var s := Reached(TwoSteps(), ls);
    CrashFree(ls) && s.rows == rows && s.calls == calls && s.clock == 0
  }

  /** Call i performs action a. */
  lemma Do(ls: seq<Label>, rows: Table, calls: seq<Pc>, i: nat, a: Action) returns (ls': seq<Label>)
    requires LeadsTo(ls, rows, calls) && i < |calls|
    requires Next(TwoSteps(), Reached(TwoSteps(), ls), calls[i], Success(Absent)) == a
    ensures LeadsTo(ls', NextRows(Reached(TwoSteps(), ls), a), calls[i := a.pc]) && ls' == ls + [Go(i)]
  {
    ls' := Extend(ls, Go(i));
  }

  /** Call i writes the output of step n. */
  lemma Writes(ls: seq<Label>, rows: Table, calls: seq<Pc>, i: nat, n: string, out: Json) returns (ls': seq<Label>)
    requires LeadsTo(ls, rows, calls) && i < |calls| && calls[i] == Completing(n, out) && n in rows
    ensures ls' == ls + [Go(i)]
    ensures LeadsTo(ls', rows[n := UpdateRow(rows[n], Completed, out, "", 0)], calls[i := Publishing(n, out)])
  {
    ls' := Do(ls, rows, calls, i, Complete(n, out, Publishing(n, out)));
  }

  lemma InsertedBoth() returns (ls: seq<Label>)
    ensures LeadsTo(ls, Rows(FreshRow()), [Listing])
  {
    ls := Extend([], Go(0));
    ls := Extend(ls, Go(0));
    ls := Extend(ls, Go(0));
  }

  lemma Listed() returns (ls: seq<Label>)
    ensures LeadsTo(ls, Rows(FreshRow()), [Looping(Rows(FreshRow()), 0)])
  {
    ls := InsertedBoth();
    var rows := Rows(FreshRow());
    assert "a" in rows && rows["a"].status.Pending?;
    assert !AnyFailed(rows) && !AllFinished(rows);
    ls := Extend(ls, Go(0));
  }

  lemma NoInputForA(a: Row)
    ensures StepInput(TwoSteps().defs["a"], Rows(a)) == Absent
  {
    var outputs := CompletedOutputs(Rows(a));
    assert (map d | d in outputs && d in [] && outputs[d] != Absent :: outputs[d]) == map[];
  }

  lemma FirstWaits() returns (ls: seq<Label>)
    ensures LeadsTo(ls, Rows(WaitingRow()), [Looping(Rows(FreshRow()), 1)])
  {
    ls := Listed();
    var snap := Rows(FreshRow());
    NoInputForA(FreshRow());
    assert ReadyIn(TwoSteps(), snap, "a");
    ls := Do(ls, snap, [Looping(snap, 0)], 0, Claim("a", WaitingManual, Absent, Announcing(snap, 0)));
    assert snap["a" := WaitingRow()] == Rows(WaitingRow());
    ls := Do(ls, Rows(WaitingRow()), [Announcing(snap, 0)], 0, Move(Looping(snap, 1), Some(Notified("a")), None));
  }

  /** StartInstance has returned; "a" waits. */
  lemma FirstReturned() returns (ls: seq<Label>)
    ensures LeadsTo(ls, Rows(WaitingRow()), [Done])
  {
    ls := FirstWaits();
    assert "a" in TwoSteps().defs["b"].deps;
    assert !ReadyIn(TwoSteps(), Rows(FreshRow()), "b");
    ls := Extend(ls, Go(0));
    ls := Extend(ls, Go(0));
  }

  lemma BothCalled() returns (ls: seq<Label>)
    ensures LeadsTo(ls, Rows(WaitingRow()), [Done, Checking("a", FIRST), Checking("a", SECOND)])
  {
    ls := FirstReturned();
    ls := Extend(ls, Trigger("a", FIRST));
    ls := Extend(ls, Trigger("a", SECOND));
  }

  /** Two triggers of "a" have both passed the check. */
  lemma BothAccepted() returns (ls: seq<Label>)
    ensures LeadsTo(ls, Rows(WaitingRow()), [Done, Completing("a", FIRST), Completing("a", SECOND)])
  {
    ls := BothCalled();
    var calls := [Done, Checking("a", FIRST), Checking("a", SECOND)];
    ls := Do(ls, Rows(WaitingRow()), calls, 1,
             Move(Completing("a", FIRST), Some(Accepted("a")), Some(AcceptFact("a", FIRST))));
    ls := Do(ls, Rows(WaitingRow()), calls[1 := Completing("a", FIRST)], 2,
             Move(Completing("a", SECOND), Some(Accepted("a")), Some(AcceptFact("a", SECOND))));
  }

  function FirstRow(): Row
  {
    UpdateRow(WaitingRow(), Completed, FIRST, "", 0)
  }

  lemma FirstWrote() returns (ls: seq<Label>)
    ensures LeadsTo(ls, Rows(FirstRow()), [Done, Publishing("a", FIRST), Completing("a", SECOND)])
  {
    ls := BothAccepted();
    var calls := [Done, Completing("a", FIRST), Completing("a", SECOND)];
    ls := Writes(ls, Rows(WaitingRow()), calls, 1, "a", FIRST);
    assert Rows(WaitingRow())["a" := FirstRow()] == Rows(FirstRow());
  }

  /** The first trigger has written and taken its snapshot. */
  lemma FirstListed() returns (ls: seq<Label>)
    ensures LeadsTo(ls, Rows(FirstRow()), [Done, Looping(Rows(FirstRow()), 0), Completing("a", SECOND)])
  {
    ls := FirstWrote();
    var rows, calls := Rows(FirstRow()), [Done, Publishing("a", FIRST), Completing("a", SECOND)];
    ls := Do(ls, rows, calls, 1, Move(Listing, None, None));
    assert "b" in rows && rows["b"].status.Pending?;
    assert !AnyFailed(rows) && !AllFinished(rows);
    ls := Do(ls, rows, calls[1 := Listing], 1, Move(Looping(rows, 0), Some(Snapshot), None));
  }

  lemma InputOfB(a: Row)
    requires a.status.Completed? && a.output != Absent
    ensures StepInput(TwoSteps().defs["b"], Rows(a)) == Object(map["a" := a.output])
  {
    var outputs := CompletedOutputs(Rows(a));
    assert outputs == map["a" := a.output];
    assert (map d | d in outputs && d in ["a"] && outputs[d] != Absent :: outputs[d]) == map["a" := a.output];
  }

  /** The call skips "a", which its snapshot shows as completed. */
  lemma SkipsA(ls: seq<Label>, a: Row, other: Pc) returns (ls': seq<Label>)
    requires LeadsTo(ls, Rows(a), [Done, Looping(Rows(FirstRow()), 0), other])
    ensures ls <= ls' && LeadsTo(ls', Rows(a), [Done, Looping(Rows(FirstRow()), 1), other])
  {
    var snap := Rows(FirstRow());
    ls' := Do(ls, Rows(a), [Done, Looping(snap, 0), other], 1, Move(Looping(snap, 1), None, None));
  }

  function InputFirst(): Json
  {
    Object(map["a" := FIRST])
  }

  /** The rows in which "b" has been claimed with the first output. */
  function ClaimedRows(a: Row): Table
  {
    Rows(a)["b" := ClaimRow(FreshRow(), Running, InputFirst(), 0)]
  }

  /** It claims "b" with the first output, whatever row "a" has by now. */
  lemma ClaimsB(ls: seq<Label>, a: Row, other: Pc) returns (ls': seq<Label>)
    requires LeadsTo(ls, Rows(a), [Done, Looping(Rows(FirstRow()), 1), other])
    ensures ls <= ls' && LeadsTo(ls', ClaimedRows(a), [Done, Completing("b", InputFirst()), other])
  {
    var snap := Rows(FirstRow());
    InputOfB(FirstRow());
    assert ReadyIn(TwoSteps(), snap, "b");
    ls' := Do(ls, Rows(a), [Done, Looping(snap, 1), other], 1,
              Claim("b", Running, InputFirst(), Completing("b", InputFirst())));
  }

  /** The first trigger's call has claimed "b" with the first output. */
  lemma DependentClaimed() returns (ls: seq<Label>)
    ensures LeadsTo(ls, ClaimedRows(FirstRow()), [Done, Completing("b", InputFirst()), Completing("a", SECOND)])
  {
    ls := FirstListed();
    ls := SkipsA(ls, FirstRow(), Completing("a", SECOND));
    ls := ClaimsB(ls, FirstRow(), Completing("a", SECOND));
  }

  /** "b" has been claimed with an output that "a" no longer has. */
  lemma NotCurrent(a: Row)
    requires a.status.Completed? && a.output == SECOND
    ensures !InputsCurrent(TwoSteps(), ClaimedRows(a))
  {
    var rows := ClaimedRows(a);
    MergeGathers(["a"], rows);
    assert OutputOf(rows, "a") == SECOND && "a" in ["a"];
    assert "b" in rows && rows["b"].status.Running? && rows["b"].input == InputFirst();
    assert rows["b"].input != StepInput(TwoSteps().defs["b"], rows);
  }

  function SecondRow(): Row
  {
    UpdateRow(FirstRow(), Completed, SECOND, "", 0)
  }

  /** The second trigger has overwritten the output after "b" was claimed. */
  lemma TakenOverwritten() returns (ls: seq<Label>)
    ensures LeadsTo(ls, ClaimedRows(SecondRow()), [Done, Completing("b", InputFirst()), Publishing("a", SECOND)])
  {
    ls := DependentClaimed();
    var calls := [Done, Completing("b", InputFirst()), Completing("a", SECOND)];
    ls := Writes(ls, ClaimedRows(FirstRow()), calls, 2, "a", SECOND);
    assert ClaimedRows(FirstRow())["a" := SecondRow()] == ClaimedRows(SecondRow());
  }

  /** A run without a crash after which "b" holds an input that "a" no longer has as output. */
  lemma OverlapBreaksDataFlow()
    ensures exists ls :: CrashFree(ls) && !InputsCurrent(TwoSteps(), Reached(TwoSteps(), ls).rows)
  {
    var ls := TakenOverwritten();
    NotCurrent(SecondRow());
  }

  /** While "b" is unclaimed, inputs are current. */
  lemma CurrentAtFirst(a: Row)
    requires a.input == Absent
    ensures InputsCurrent(TwoSteps(), Rows(a))
  {
    NoInputForA(a);
  }

  /** The second trigger has overwritten the output, and the first still holds its snapshot. */
  lemma SecondWrote(ls: seq<Label>) returns (ls': seq<Label>)
    requires LeadsTo(ls, Rows(FirstRow()), [Done, Looping(Rows(FirstRow()), 0), Completing("a", SECOND)])
    ensures ls' == ls + [Go(2)]
    ensures LeadsTo(ls', Rows(SecondRow()), [Done, Looping(Rows(FirstRow()), 0), Publishing("a", SECOND)])
    ensures InputsCurrent(TwoSteps(), Rows(SecondRow()))
  {
    var calls := [Done, Looping(Rows(FirstRow()), 0), Completing("a", SECOND)];
    ls' := Writes(ls, Rows(FirstRow()), calls, 2, "a", SECOND);
    assert Rows(FirstRow())["a" := SecondRow()] == Rows(SecondRow());
    CurrentAtFirst(SecondRow());
  }

  /** A run without a crash in which the output is overwritten before anybody has taken it, so
      that the inputs are current right after the write, and a call then claims the dependent
      from the snapshot that it still holds. */
  lemma SnapshotBreaksDataFlow()
    ensures exists before, ls ::
              && CrashFree(ls) && before + [Go(2)] <= ls
              && !Consumed(TwoSteps(), Reached(TwoSteps(), before).rows, "a")
              && InputsCurrent(TwoSteps(), Reached(TwoSteps(), before + [Go(2)]).rows)
              && !InputsCurrent(TwoSteps(), Reached(TwoSteps(), ls).rows)
  {
    var before := FirstListed();
    var written := SecondWrote(before);
    var skipped := SkipsA(written, SecondRow(), Publishing("a", SECOND));
    var ls := ClaimsB(skipped, SecondRow(), Publishing("a", SECOND));
    assert !Consumed(TwoSteps(), Rows(FirstRow()), "a");
    NotCurrent(SecondRow());
  }
}
