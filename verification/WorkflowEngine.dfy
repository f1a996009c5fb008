/**
 The pipeline executor, apps/api/captureos/workflows/engine.py. Each call runs the named steps in order
 against the step rows an earlier call may have left behind; what a step function does in a call is
 given from outside.
 */
module WorkflowEngine {
  import opened Wrappers

  datatype StepStatus = StepDone | StepFailed | StepSkipped

  // A row is only visible to others once its step has settled; `pending` and `running` live inside a call.
  datatype StepRow = StepRow(name: string, ordinal: nat, status: Option<StepStatus>, error: Option<string>)

  datatype Outcome = Completes | Pauses(message: string) | Fails(message: string)

  datatype RunStatus = Queued | Running | Succeeded | Failed | NeedsInput

  // The run row, its step rows, and the names of the step functions that completed, in order.
  datatype Progress = Progress(status: RunStatus, error: Option<string>, steps: seq<StepRow>, log: seq<string>)

  const FRESH := Progress(Queued, None, [], [])

  function Find(steps: seq<StepRow>, name: string): (k: nat)
    ensures k <= |steps|
    ensures k < |steps| ==> steps[k].name == name
    ensures forall i | 0 <= i < k :: steps[i].name != name
  {
    if steps == [] then 0 else if steps[0].name == name then 0 else 1 + Find(steps[1..], name)
  }

  function GetOrCreate(steps: seq<StepRow>, name: string, ordinal: nat): (r: seq<StepRow>)
    ensures Find(steps, name) < |r| && steps <= r
  {
    if Find(steps, name) < |steps| then steps else steps + [StepRow(name, ordinal, None, None)]
  }

  function Continue(p: Progress, names: seq<string>, i: nat, behave: nat -> Outcome): Progress
    requires i <= |names|
    decreases |names| - i
  {
    if i == |names| then p.(status := Succeeded)
    else
      var k := Find(p.steps, names[i]);
      var steps := GetOrCreate(p.steps, names[i], i);
      if steps[k].status == Some(StepDone) then Continue(p.(steps := steps), names, i + 1, behave)
      else match behave(i)
        case Completes =>
          var done := steps[k := steps[k].(status := Some(StepDone))];
          Continue(p.(steps := done, log := p.log + [names[i]]), names, i + 1, behave)
        case Pauses(m) =>
          p.(steps := steps[k := steps[k].(status := Some(StepSkipped))], status := NeedsInput, error := Some(m))
        case Fails(m) =>
          p.(steps := steps[k := steps[k].(status := Some(StepFailed), error := Some(m))],
             status := Failed, error := Some(m))
  }

  function RunOnce(p: Progress, names: seq<string>, behave: nat -> Outcome): Progress {
    Continue(p.(status := Running), names, 0, behave)
  }

  // Any number of calls on one run, each with its own step behaviour.
  function Session(names: seq<string>, calls: seq<nat -> Outcome>): Progress {
    if calls == [] then FRESH
    else RunOnce(Session(names, calls[..|calls| - 1]), names, calls[|calls| - 1])
  }

  class WorkflowRun {
    var status: RunStatus
    var error: Option<string>
    var steps: seq<StepRow>
    ghost var log: seq<string>

    ghost function State(): Progress
      reads this
    {
      Progress(status, error, steps, log)
    }

    constructor ()
      ensures State() == FRESH
    {
      status, error, steps, log := Queued, None, [], [];
    }

    method GetOrCreateStep(name: string, ordinal: nat) returns (k: nat)
      modifies this`steps
      ensures k == Find(old(steps), name) && steps == GetOrCreate(old(steps), name, ordinal) && k < |steps|
    {
      k := 0;
      while k < |steps| && steps[k].name != name
        invariant k <= Find(steps, name)
      {
        k := k + 1;
      }
      if k == |steps| {
        steps := steps + [StepRow(name, ordinal, None, None)];
      }
    }

    method RunPipeline(names: seq<string>, behave: nat -> Outcome)
      modifies this
      ensures State() == RunOnce(old(State()), names, behave)
    {
      status := Running;
      for i := 0 to |names|
        invariant Continue(State(), names, i, behave) == RunOnce(old(State()), names, behave)
      {
        var k := GetOrCreateStep(names[i], i);
        if steps[k].status == Some(StepDone) {
          continue;
        }
        match behave(i)
        case Pauses(m) =>
          steps := steps[k := steps[k].(status := Some(StepSkipped))];
          status, error := NeedsInput, Some(m);
          return;
        case Fails(m) =>
          steps := steps[k := steps[k].(status := Some(StepFailed), error := Some(m))];
          status, error := Failed, Some(m);
          return;
        case Completes =>
          steps := steps[k := steps[k].(status := Some(StepDone))];
          log := log + [names[i]];
      }
      status := Succeeded;
    }
  }

  // ---------------------------------------------------------------------------
  // Stop and resume
  // ---------------------------------------------------------------------------

  // The pipeline's names, later repetitions dropped.
  function Distinct(names: seq<string>): seq<string> {
    if names == [] then []
    else
      var front, x := Distinct(names[..|names| - 1]), names[|names| - 1];
      if x in front then front else front + [x]
  }

  lemma {:induction false} DistinctPrefix(names: seq<string>, i: nat)
    requires i <= |names|
    ensures Distinct(names[..i]) <= Distinct(names)
  {
    if i < |names| {
      DistinctPrefix(names[..|names| - 1], i);
      assert names[..|names| - 1][..i] == names[..i];
    } else {
      assert names[..i] == names;
    }
  }

  lemma {:induction false} DistinctIsSet(names: seq<string>)
    ensures forall i, j | 0 <= i < j < |Distinct(names)| :: Distinct(names)[i] != Distinct(names)[j]
    ensures forall x :: x in Distinct(names) <==> x in names
  {
    if names != [] {
      var n := |names| - 1;
      DistinctIsSet(names[..n]);
      assert names == names[..n] + [names[n]];
    }
  }

  // What any number of calls leave: rows for an initial stretch of the pipeline, all done except
  // possibly the last, which then failed or was skipped.
  ghost predicate Shape(p: Progress, order: seq<string>) {
    && |p.log| <= |p.steps| <= |p.log| + 1 && |p.steps| <= |order|
    && p.log == order[..|p.log|]
    && (forall k | 0 <= k < |p.steps| :: p.steps[k].name == order[k])
    && (forall k | 0 <= k < |p.log| :: p.steps[k].status == Some(StepDone))
    && (|p.steps| > |p.log| ==>
      p.steps[|p.log|].status == Some(StepFailed) || p.steps[|p.log|].status == Some(StepSkipped))
  }

  lemma FindInShape(p: Progress, order: seq<string>, name: string, at: nat)
    requires Shape(p, order) && forall i, j | 0 <= i < j < |order| :: order[i] != order[j]
    requires at < |order| && order[at] == name && at <= |p.log|
    ensures Find(p.steps, name) == at
  {
    var k := Find(p.steps, name);
    if k < |p.steps| {
      assert order[k] == name;
    }
  }

  // A call that is over: succeeded with everything done, or stopped at its last row.
  ghost predicate Ended(r: Progress, order: seq<string>) {
    && Shape(r, order)
    && (r.status.Succeeded? <==> r.log == order)
    && (r.status.Failed? ==> |r.steps| > |r.log| && r.steps[|r.log|].status == Some(StepFailed)
                             && r.error.Some? && r.error == r.steps[|r.log|].error)
    && (r.status.NeedsInput? ==> |r.steps| > |r.log| && r.steps[|r.log|].status == Some(StepSkipped) && r.error.Some?)
    && (r.status.Succeeded? || r.status.Failed? || r.status.NeedsInput?)
  }

  // Where the next name stands: among the names already passed, or next in line.
  lemma Locate(p: Progress, names: seq<string>, i: nat) returns (at: nat)
    requires i < |names| && Shape(p, Distinct(names)) && |Distinct(names[..i])| <= |p.log|
    ensures at < |Distinct(names)| && Distinct(names)[at] == names[i] && at <= |p.log|
    ensures Find(p.steps, names[i]) == at
    ensures |Distinct(names[..i + 1])| <= Max(at + 1, |Distinct(names[..i])|)
  {
    var before := Distinct(names[..i]);
    DistinctIsSet(names);
    DistinctPrefix(names, i);
    DistinctPrefix(names, i + 1);
    assert names[..i + 1][..i] == names[..i];
    at := if names[i] in before then PositionOf(before, names[i]) else |before|;
    FindInShape(p, Distinct(names), names[i], at);
  }

  lemma StopsInShape(p: Progress, order: seq<string>, at: nat, i: nat, status: StepStatus, error: Option<string>)
    requires Shape(p, order) && at == |p.log| < |order| && Find(p.steps, order[at]) == at && !status.StepDone?
    ensures var steps := GetOrCreate(p.steps, order[at], i);
      Shape(p.(steps := steps[at := steps[at].(status := Some(status), error := error)]), order)
  {
  }

  lemma DoneInShape(p: Progress, order: seq<string>, at: nat, i: nat)
    requires Shape(p, order) && at == |p.log| < |order| && Find(p.steps, order[at]) == at
    ensures var steps := GetOrCreate(p.steps, order[at], i);
      Shape(p.(steps := steps[at := steps[at].(status := Some(StepDone))], log := p.log + [order[at]]), order)
  {
  }

  lemma {:induction false} ContinueShape(p: Progress, names: seq<string>, i: nat, behave: nat -> Outcome)
    requires i <= |names| && Shape(p, Distinct(names)) && |Distinct(names[..i])| <= |p.log|
    ensures Ended(Continue(p, names, i, behave), Distinct(names))
    decreases |names| - i
  {
    var order := Distinct(names);
    if i == |names| {
      assert names[..i] == names;
    } else {
      var at := Locate(p, names, i);
      var steps := GetOrCreate(p.steps, names[i], i);
      if at < |p.log| {
        assert steps == p.steps;
        ContinueShape(p, names, i + 1, behave);
      } else {
        match behave(i)
        case Completes =>
          var q := p.(steps := steps[at := steps[at].(status := Some(StepDone))], log := p.log + [names[i]]);
          DoneInShape(p, order, at, i);
          ContinueShape(q, names, i + 1, behave);
        case Pauses(m) => StopsInShape(p, order, at, i, StepSkipped, steps[at].error);
        case Fails(m) => StopsInShape(p, order, at, i, StepFailed, Some(m));
      }
    }
  }

  function PositionOf(s: seq<string>, x: string): (k: nat)
    requires x in s
    ensures k < |s| && s[k] == x
  {
    if s[0] == x then 0 else 1 + PositionOf(s[1..], x)
  }

  // After any calls the completed steps are an initial stretch of the pipeline, each once; the run has
  // succeeded exactly when that is the whole pipeline.
  lemma {:induction false} SessionShape(names: seq<string>, calls: seq<nat -> Outcome>)
    ensures Shape(Session(names, calls), Distinct(names))
    ensures calls != [] ==> Ended(Session(names, calls), Distinct(names))
  {
    if calls != [] {
      var n := |calls| - 1;
      SessionShape(names, calls[..n]);
      assert names[..0] == [];
      ContinueShape(Session(names, calls[..n]).(status := Running), names, 0, calls[n]);
    }
  }

  function AllComplete(): nat -> Outcome {
    i => Completes
  }

  lemma {:induction false} NeverStops(p: Progress, names: seq<string>, i: nat)
    requires i <= |names|
    ensures Continue(p, names, i, AllComplete()).status.Succeeded?
    decreases |names| - i
  {
    if i < |names| {
      var k := Find(p.steps, names[i]);
      var steps := GetOrCreate(p.steps, names[i], i);
      NeverStops(p.(steps := steps), names, i + 1);
      NeverStops(p.(steps := steps[k := steps[k].(status := Some(StepDone))], log := p.log + [names[i]]), names, i + 1);
    }
  }

  // Stopped any number of times and resumed, a run that succeeds has completed the very steps of an
  // uninterrupted run, in the same order and none twice.
  lemma ResumedEqualsStraight(names: seq<string>, calls: seq<nat -> Outcome>)
    requires calls != [] && Session(names, calls).status.Succeeded?
    ensures var p, straight := Session(names, calls), RunOnce(FRESH, names, AllComplete());
      && p.log == straight.log == Distinct(names)
      && |p.steps| == |straight.steps|
      && forall k | 0 <= k < |p.steps| ::
           p.steps[k].name == straight.steps[k].name && p.steps[k].status == straight.steps[k].status == Some(StepDone)
    ensures forall i, j | 0 <= i < j < |Distinct(names)| :: Distinct(names)[i] != Distinct(names)[j]
  {
    SessionShape(names, calls);
    NeverStops(FRESH.(status := Running), names, 0);
    assert names[..0] == [];
    ContinueShape(FRESH.(status := Running), names, 0, AllComplete());
    DistinctIsSet(names);
  }

  // A further call keeps what was completed, and repeats none of it.
  lemma ResumeKeepsLog(names: seq<string>, calls: seq<nat -> Outcome>, behave: nat -> Outcome)
    ensures Session(names, calls).log <= Session(names, calls + [behave]).log
  {
    assert (calls + [behave])[..|calls|] == calls;
    LogGrows(Session(names, calls).(status := Running), names, 0, behave);
  }

  lemma {:induction false} LogGrows(p: Progress, names: seq<string>, i: nat, behave: nat -> Outcome)
    requires i <= |names|
    ensures p.log <= Continue(p, names, i, behave).log
    decreases |names| - i
  {
    if i < |names| {
      var k := Find(p.steps, names[i]);
      var steps := GetOrCreate(p.steps, names[i], i);
      LogGrows(p.(steps := steps), names, i + 1, behave);
      var marked := p.(steps := steps[k := steps[k].(status := Some(StepDone))], log := p.log + [names[i]]);
      LogGrows(marked, names, i + 1, behave);
    }
  }

  // ---------------------------------------------------------------------------
  // Where a call stops, and how
  // ---------------------------------------------------------------------------

  predicate DoneIn(steps: seq<StepRow>, name: string) {
    var k := Find(steps, name);
    k < |steps| && steps[k].status == Some(StepDone)
  }

  // The step is still to be run when its turn comes.
  predicate Open(steps: seq<StepRow>, names: seq<string>, i: nat)
    requires i < |names|
  {
    !DoneIn(steps, names[i]) && names[i] !in names[..i]
  }

  // The first step that is to be run and does not complete.
  predicate StopsAt(steps: seq<StepRow>, names: seq<string>, behave: nat -> Outcome, k: nat) {
    && k < |names| && Open(steps, names, k) && !behave(k).Completes?
    && forall j | 0 <= j < k && Open(steps, names, j) :: behave(j).Completes?
  }

  // The steps to be run, in order.
  function ToRun(steps: seq<StepRow>, names: seq<string>): seq<string> {
    if names == [] then []
    else
      var n := |names| - 1;
      ToRun(steps, names[..n]) + if Open(steps, names, n) then [names[n]] else []
  }

  // The run and the step end as the step's function did.
  predicate StoppedBy(r: Progress, name: string, outcome: Outcome) {
    var k := Find(r.steps, name);
    k < |r.steps| && match outcome
      case Completes => false
      case Pauses(m) => r.status == NeedsInput && r.error == Some(m) && r.steps[k].status == Some(StepSkipped)
      case Fails(m) =>
        && r.status == Failed && r.error == Some(m)
        && r.steps[k].status == Some(StepFailed) && r.steps[k].error == Some(m)
  }

  lemma {:induction false} FindByNames(a: seq<StepRow>, b: seq<StepRow>, name: string)
    requires |a| == |b| && forall i | 0 <= i < |a| :: a[i].name == b[i].name
    ensures Find(a, name) == Find(b, name)
  {
    if a != [] {
      FindByNames(a[1..], b[1..], name);
    }
  }

  lemma {:induction false} FindMore(steps: seq<StepRow>, row: StepRow, name: string)
    ensures Find(steps + [row], name) ==
      if Find(steps, name) < |steps| || row.name == name then Find(steps, name) else |steps| + 1
  {
    if steps != [] {
      assert (steps + [row])[1..] == steps[1..] + [row];
      FindMore(steps[1..], row, name);
    }
  }

  // The row of a step, with a new status and error.
  function Marked(steps: seq<StepRow>, name: string, i: nat, status: StepStatus, error: Option<string>): seq<StepRow> {
    var k, rows := Find(steps, name), GetOrCreate(steps, name, i);
    rows[k := rows[k].(status := Some(status), error := error)]
  }

  lemma MarkedRow(steps: seq<StepRow>, name: string, i: nat, status: StepStatus, error: Option<string>, other: string)
    ensures var rows := Marked(steps, name, i, status, error);
      && Find(rows, name) < |rows|
      && rows[Find(rows, name)].status == Some(status) && rows[Find(rows, name)].error == error
      && (DoneIn(rows, other) <==> if other == name then status.StepDone? else DoneIn(steps, other))
  {
    var rows := GetOrCreate(steps, name, i);
    FindByNames(Marked(steps, name, i, status, error), rows, name);
    FindByNames(Marked(steps, name, i, status, error), rows, other);
    FindMore(steps, StepRow(name, i, None, None), name);
    FindMore(steps, StepRow(name, i, None, None), other);
  }

  // Before step i of a call that found these steps: the ones passed are done, and none of them stopped it.
  ghost predicate Passed(before: Progress, p: Progress, names: seq<string>, behave: nat -> Outcome, i: nat) {
    && i <= |names| && p.error == before.error
    && p.log == before.log + ToRun(before.steps, names[..i])
    && (forall name :: DoneIn(p.steps, name) <==> DoneIn(before.steps, name) || name in names[..i])
    && forall j | 0 <= j < i && Open(before.steps, names, j) :: behave(j).Completes?
  }

  ghost predicate EndsWell(before: Progress, r: Progress, names: seq<string>, behave: nat -> Outcome) {
    && (r.status.Succeeded? <==> forall k: nat :: !StopsAt(before.steps, names, behave, k))
    && (r.status.Succeeded? ==> r.error == before.error && r.log == before.log + ToRun(before.steps, names))
    && forall k: nat | StopsAt(before.steps, names, behave, k) ::
      StoppedBy(r, names[k], behave(k)) && r.log == before.log + ToRun(before.steps, names[..k])
  }

  lemma NextPassed(before: Progress, p: Progress, names: seq<string>, behave: nat -> Outcome, i: nat,
      steps: seq<StepRow>)
    requires Passed(before, p, names, behave, i) && i < |names| && behave(i).Completes? && !DoneIn(p.steps, names[i])
    requires forall name :: DoneIn(steps, name) <==> DoneIn(p.steps, name) || name == names[i]
    ensures Passed(before, p.(steps := steps, log := p.log + [names[i]]), names, behave, i + 1)
  {
    assert names[..i + 1][..i] == names[..i];
    assert ToRun(before.steps, names[..i + 1]) == ToRun(before.steps, names[..i]) + [names[i]];
  }

  lemma SkippedPassed(before: Progress, p: Progress, names: seq<string>, behave: nat -> Outcome, i: nat)
    requires Passed(before, p, names, behave, i) && i < |names| && DoneIn(p.steps, names[i])
    ensures Passed(before, p, names, behave, i + 1)
  {
    assert names[..i + 1][..i] == names[..i];
    assert ToRun(before.steps, names[..i + 1]) == ToRun(before.steps, names[..i]);
  }

  lemma StopsAtOnce(before: Progress, p: Progress, names: seq<string>, behave: nat -> Outcome, i: nat)
    requires Passed(before, p, names, behave, i) && i < |names| && !behave(i).Completes? && !DoneIn(p.steps, names[i])
    ensures forall k: nat :: StopsAt(before.steps, names, behave, k) <==> k == i
  {
    assert Open(before.steps, names, i);
  }

  lemma StoppedRow(p: Progress, names: seq<string>, behave: nat -> Outcome, i: nat)
    requires i < |names| && !behave(i).Completes? && !DoneIn(p.steps, names[i])
    ensures var r := Continue(p, names, i, behave);
      StoppedBy(r, names[i], behave(i)) && r.log == p.log && !r.status.Succeeded?
  {
    var k := Find(p.steps, names[i]);
    var error := GetOrCreate(p.steps, names[i], i)[k].error;
    match behave(i)
    case Pauses(m) => MarkedRow(p.steps, names[i], i, StepSkipped, error, names[i]);
    case Fails(m) => MarkedRow(p.steps, names[i], i, StepFailed, Some(m), names[i]);
  }

  lemma AllPassed(before: Progress, p: Progress, names: seq<string>, behave: nat -> Outcome)
    requires Passed(before, p, names, behave, |names|)
    ensures EndsWell(before, p.(status := Succeeded), names, behave)
  {
    assert names[..|names|] == names;
    forall k: nat ensures !StopsAt(before.steps, names, behave, k) {
      assert k < |names| && Open(before.steps, names, k) ==> behave(k).Completes?;
    }
  }

  lemma {:induction false} ContinueEndsWell(before: Progress, p: Progress, names: seq<string>, behave: nat -> Outcome,
      i: nat)
    requires Passed(before, p, names, behave, i)
    ensures EndsWell(before, Continue(p, names, i, behave), names, behave)
    decreases |names| - i
  {
    if i == |names| {
      AllPassed(before, p, names, behave);
    } else if DoneIn(p.steps, names[i]) {
      SkippedPassed(before, p, names, behave, i);
      ContinueEndsWell(before, p, names, behave, i + 1);
      assert p.(steps := GetOrCreate(p.steps, names[i], i)) == p;
    } else if behave(i).Completes? {
      var error := GetOrCreate(p.steps, names[i], i)[Find(p.steps, names[i])].error;
      var steps := Marked(p.steps, names[i], i, StepDone, error);
      forall name ensures DoneIn(steps, name) <==> DoneIn(p.steps, name) || name == names[i] {
        MarkedRow(p.steps, names[i], i, StepDone, error, name);
      }
      NextPassed(before, p, names, behave, i, steps);
      ContinueEndsWell(before, p.(steps := steps, log := p.log + [names[i]]), names, behave, i + 1);
    } else {
      StopsAtOnce(before, p, names, behave, i);
      StoppedRow(p, names, behave, i);
      assert StopsAt(before.steps, names, behave, i);
    }
  }

  // A call stops at the first step that is to be run and does not complete. The run fails with that step's error
  // exactly if the step failed, waits for input exactly if the step asked for it, and succeeds exactly if there is no
  // such step. What ran to completion are the steps to be run before it, in order.
  lemma RunEndsAsStepsDo(p: Progress, names: seq<string>, behave: nat -> Outcome)
    ensures EndsWell(p, RunOnce(p, names, behave), names, behave)
  {
    assert names[..0] == [];
    ContinueEndsWell(p, p.(status := Running), names, behave, 0);
  }

  predicate OrdinalsTell(steps: seq<StepRow>, names: seq<string>) {
    forall k | 0 <= k < |steps| :: steps[k].ordinal < |names| && names[steps[k].ordinal] == steps[k].name
  }

  lemma {:induction false} ContinueKeepsOrdinals(p: Progress, names: seq<string>, i: nat, behave: nat -> Outcome)
    requires i <= |names| && OrdinalsTell(p.steps, names)
    ensures OrdinalsTell(Continue(p, names, i, behave).steps, names)
    decreases |names| - i
  {
    if i < |names| {
      var k, rows := Find(p.steps, names[i]), GetOrCreate(p.steps, names[i], i);
      assert OrdinalsTell(rows, names);
      ContinueKeepsOrdinals(p.(steps := rows), names, i + 1, behave);
      var marked := p.(steps := rows[k := rows[k].(status := Some(StepDone))], log := p.log + [names[i]]);
      ContinueKeepsOrdinals(marked, names, i + 1, behave);
    }
  }

  // After any calls each row carries a position of its step in the pipeline.
  lemma {:induction false} SessionOrdinals(names: seq<string>, calls: seq<nat -> Outcome>)
    ensures OrdinalsTell(Session(names, calls).steps, names)
  {
    if calls != [] {
      var n := |calls| - 1;
      SessionOrdinals(names, calls[..n]);
      ContinueKeepsOrdinals(Session(names, calls[..n]).(status := Running), names, 0, calls[n]);
    }
  }
}
