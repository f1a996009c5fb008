/**
 Claims in the order of apps/api/captureos/workflows/queue.py `_claim_one`, the due job that became available
 first: every unfinished job that is pending or locked is reached, and none is overtaken by a younger one.
 */
module WorkflowFair {
  import opened Wrappers
  import opened Sums
  import opened WorkflowQueue

  predicate OldestDue(s: State, j: nat) {
    Claimable(s, j) && forall k | 0 <= k < |s.jobs| && Claimable(s, k) :: s.jobs[j].availableAt <= s.jobs[k].availableAt
  }

  predicate InOrder(cfg: Config, s: State, l: Label) {
    Enabled(cfg, s, l) && (l.Claim? ==> OldestDue(s, l.job))
  }

  // Every label takes effect, and every claim takes the oldest due job.
  predicate OldestFirst(cfg: Config, s: State, labels: seq<Label>) {
    labels == [] ||
    (OldestFirst(cfg, s, labels[..|labels| - 1])
     && InOrder(cfg, RunFrom(cfg, s, labels[..|labels| - 1]), labels[|labels| - 1]))
  }

  lemma More(cfg: Config, s: State, labels: seq<Label>, l: Label)
    ensures RunFrom(cfg, s, labels + [l]) == Step(cfg, RunFrom(cfg, s, labels), l)
    ensures OldestFirst(cfg, s, labels + [l]) <==>
      OldestFirst(cfg, s, labels) && InOrder(cfg, RunFrom(cfg, s, labels), l)
  {
    assert (labels + [l])[..|labels|] == labels;
  }

  lemma {:induction false} Concat(cfg: Config, s: State, a: seq<Label>, b: seq<Label>)
    ensures RunFrom(cfg, s, a + b) == RunFrom(cfg, RunFrom(cfg, s, a), b)
    ensures OldestFirst(cfg, s, a) && OldestFirst(cfg, RunFrom(cfg, s, a), b) ==> OldestFirst(cfg, s, a + b)
  {
    if b == [] {
      assert a + b == a;
    } else {
      var n := |b| - 1;
      assert (a + b)[..|a + b| - 1] == a + b[..n];
      Concat(cfg, s, a, b[..n]);
    }
  }

  // ---------------------------------------------------------------------------
  // Every unfinished job is reached
  // ---------------------------------------------------------------------------

  function Due(s: State): set<nat> {
    set k | 0 <= k < |s.jobs| && Claimable(s, k)
  }

  lemma {:induction false} OldestAmong(s: State, due: set<nat>) returns (k: nat)
    requires due != {} && forall i | i in due :: Claimable(s, i)
    ensures k in due && Claimable(s, k) && forall i | i in due && Claimable(s, i) ::
      s.jobs[k].availableAt <= s.jobs[i].availableAt
    decreases |due|
  {
    var j :| j in due;
    if due == {j} {
      k := j;
    } else {
      k := OldestAmong(s, due - {j});
      if s.jobs[j].availableAt < s.jobs[k].availableAt {
        k := j;
      }
    }
  }

  // Nothing happened but to job k and to workers, and worker w is free.
  predicate OnlyJob(s: State, t: State, k: nat, w: nat) {
    && t.now == s.now && |t.jobs| == |s.jobs| && |t.workers| == |s.workers|
    && (forall i | 0 <= i < |s.jobs| :: (i != k ==> t.jobs[i] == s.jobs[i]) && t.runs[i].present == s.runs[i].present)
    && w < |t.workers| && t.workers[w].Idle?
  }

  lemma CommitFrees(cfg: Config, s: State, v: nat, outcome: RunStatus)
    requires RunsInv(s) && v < |s.workers| && s.workers[v].Executing? && !outcome.Queued?
    ensures InOrder(cfg, s, Commit(v, outcome)) && !RunLocked(Apply(cfg, s, Commit(v, outcome)), s.workers[v].job)
  {
    forall u | 0 <= u < |s.workers| && u != v
      ensures !(s.workers[u].Executing? && s.workers[u].job == s.workers[v].job)
    {
      assert ExecuteApart(s.workers[Min(u, v)], s.workers[Max(u, v)]);
    }
  }

  // The lock on a run is waited for: its holder commits.
  lemma AwaitLock(cfg: Config, trace: seq<Label>, k: nat, outcome: RunStatus) returns (more: seq<Label>)
    requires var s := RunFrom(cfg, START, trace); k < |s.jobs| && s.runs[k].present && !outcome.Queued?
    ensures var s := RunFrom(cfg, START, trace);
      var t := RunFrom(cfg, s, more);
      && OldestFirst(cfg, s, more) && !RunLocked(t, k)
      && t.now == s.now && t.jobs == s.jobs && |t.workers| == |s.workers|
      && (forall i | 0 <= i < |s.jobs| :: t.runs[i].present == s.runs[i].present)
      && forall v | 0 <= v < |s.workers| && !s.workers[v].Executing? :: t.workers[v] == s.workers[v]
  {
    var s := RunFrom(cfg, START, trace);
    more := [];
    if RunLocked(s, k) {
      var v :| 0 <= v < |s.workers| && s.workers[v].Executing? && s.workers[v].job == k;
      RunKeepsRuns(cfg, trace);
      CommitFrees(cfg, s, v, outcome);
      assert [] + [Commit(v, outcome)] == [Commit(v, outcome)];
      More(cfg, s, [], Commit(v, outcome));
      more := [Commit(v, outcome)];
    }
  }

  lemma RunExecuted(cfg: Config, s: State, w: nat, outcome: RunStatus) returns (more: seq<Label>)
    requires w < |s.workers| && s.workers[w].Claimed? && !RunLocked(s, s.workers[w].job) && !outcome.Queued?
    requires s.runs[s.workers[w].job].present
    ensures var k, t := s.workers[w].job, RunFrom(cfg, s, more);
      && OldestFirst(cfg, s, more) && t.now == s.now && t.jobs == s.jobs
      && t.workers == s.workers[w := Returned(k, s.workers[w].attempt)]
      && (forall i | 0 <= i < |s.runs| :: t.runs[i].present == s.runs[i].present)
      && t.runs[k].status == if Terminal(s.runs[k]) then s.runs[k].status else outcome
  {
    assert [] + [Execute(w)] == [Execute(w)];
    More(cfg, s, [], Execute(w));
    more := [Execute(w)];
    if !Terminal(s.runs[s.workers[w].job]) {
      More(cfg, s, more, Commit(w, outcome));
      more := more + [Commit(w, outcome)];
    }
  }

  lemma TwoSteps(cfg: Config, s: State, a: Label, b: Label)
    ensures RunFrom(cfg, s, [a, b]) == Step(cfg, Step(cfg, s, a), b)
    ensures OldestFirst(cfg, s, [a, b]) <==> InOrder(cfg, s, a) && InOrder(cfg, Step(cfg, s, a), b)
  {
    assert [] + [a] == [a] && [a] + [b] == [a, b];
    More(cfg, s, [], a);
    More(cfg, s, [a], b);
  }

  lemma RowRead(cfg: Config, s: State, w: nat)
    requires w < |s.workers| && s.workers[w].Returned? && s.runs[s.workers[w].job].present
    ensures var job := s.jobs[s.workers[w].job];
      var worker := Recording(s.workers[w].job, s.workers[w].attempt, Done, job.status, job.lockedAt.Some?);
      InOrder(cfg, s, Read(w)) && Step(cfg, s, Read(w)) == s.(workers := s.workers[w := worker])
  {
  }

  lemma RowWritten(cfg: Config, s: State, w: nat)
    requires w < |s.workers| && s.workers[w].Recording? && s.workers[w].target.Done? && s.workers[w].saw.Processing?
    requires var k := s.workers[w].job; s.runs[k].present && s.jobs[k].status.Processing?
    ensures var k, t := s.workers[w].job, Step(cfg, s, Write(w));
      InOrder(cfg, s, Write(w)) && OnlyJob(s, t, k, w) && t.jobs[k].status.Done? && t.runs == s.runs
  {
  }

  lemma FateRecorded(cfg: Config, s: State, w: nat) returns (more: seq<Label>)
    requires w < |s.workers| && s.workers[w].Returned?
    requires var k := s.workers[w].job; s.runs[k].present && s.jobs[k].status.Processing?
    ensures var k, t := s.workers[w].job, RunFrom(cfg, s, more);
      && OldestFirst(cfg, s, more) && OnlyJob(s, t, k, w) && t.jobs[k].status.Done? && t.runs == s.runs
  {
    RowRead(cfg, s, w);
    RowWritten(cfg, Step(cfg, s, Read(w)), w);
    TwoSteps(cfg, s, Read(w), Write(w));
    more := [Read(w), Write(w)];
  }

  // A claimed job whose run nobody else executes is brought to `done`.
  lemma RunsToDone(cfg: Config, s: State, w: nat, outcome: RunStatus) returns (more: seq<Label>)
    requires w < |s.workers| && s.workers[w].Claimed? && !RunLocked(s, s.workers[w].job) && !outcome.Queued?
    requires var k := s.workers[w].job; s.runs[k].present && s.jobs[k].status.Processing?
    ensures var k, t := s.workers[w].job, RunFrom(cfg, s, more);
      && OldestFirst(cfg, s, more) && OnlyJob(s, t, k, w) && t.jobs[k].status.Done?
      && t.runs[k].status == if Terminal(s.runs[k]) then s.runs[k].status else outcome
  {
    var run := RunExecuted(cfg, s, w, outcome);
    var record := FateRecorded(cfg, RunFrom(cfg, s, run), w);
    Concat(cfg, s, run, record);
    more := run + record;
  }

  // Once claimed, a job waits for its run's lock and is finished.
  lemma ClaimedServed(cfg: Config, trace: seq<Label>, w: nat, outcome: RunStatus) returns (more: seq<Label>)
    requires var s := RunFrom(cfg, START, trace);
      w < |s.workers| && s.workers[w].Claimed? && !outcome.Queued?
    requires var s := RunFrom(cfg, START, trace);
      var k := s.workers[w].job; s.runs[k].present && s.jobs[k].status.Processing?
    ensures var s := RunFrom(cfg, START, trace);
      var t, k := RunFrom(cfg, s, more), s.workers[w].job;
      OldestFirst(cfg, s, more) && OnlyJob(s, t, k, w) && t.jobs[k].status.Done?
  {
    var s := RunFrom(cfg, START, trace);
    var wait := AwaitLock(cfg, trace, s.workers[w].job, outcome);
    var finish := RunsToDone(cfg, RunFrom(cfg, s, wait), w, outcome);
    Concat(cfg, s, wait, finish);
    more := wait + finish;
  }

  lemma OldestClaimed(cfg: Config, s: State, w: nat, k: nat)
    requires w < |s.workers| && s.workers[w].Idle? && OldestDue(s, k)
    ensures OldestFirst(cfg, s, [Claim(w, k)]) && RunFrom(cfg, s, [Claim(w, k)]) == Apply(cfg, s, Claim(w, k))
  {
    assert [] + [Claim(w, k)] == [Claim(w, k)];
    More(cfg, s, [], Claim(w, k));
  }

  // A worker takes the oldest due job, waits for the run's lock and finishes it.
  lemma OldestServed(cfg: Config, trace: seq<Label>, w: nat, k: nat, outcome: RunStatus) returns (more: seq<Label>)
    requires var s := RunFrom(cfg, START, trace);
      w < |s.workers| && s.workers[w].Idle? && OldestDue(s, k) && !outcome.Queued?
    ensures var s := RunFrom(cfg, START, trace);
      var t := RunFrom(cfg, s, more);
      OldestFirst(cfg, s, more) && OnlyJob(s, t, k, w) && t.jobs[k].status.Done?
  {
    var s := RunFrom(cfg, START, trace);
    var claim := [Claim(w, k)];
    OldestClaimed(cfg, s, w, k);
    Concat(cfg, START, trace, claim);
    var serve := ClaimedServed(cfg, trace + claim, w, outcome);
    Concat(cfg, s, claim, serve);
    more := claim + serve;
  }

  // Serving an older job leaves fewer due ones, and the younger as they were.
  lemma OneFewer(cfg: Config, trace: seq<Label>, w: nat, j: nat, outcome: RunStatus) returns (more: seq<Label>)
    requires var s := RunFrom(cfg, START, trace);
      w < |s.workers| && s.workers[w].Idle? && Claimable(s, j) && !OldestDue(s, j) && !outcome.Queued?
    ensures var s := RunFrom(cfg, START, trace);
      var t := RunFrom(cfg, s, more);
      && OldestFirst(cfg, s, more) && w < |t.workers| && t.workers[w].Idle?
      && Claimable(t, j) && t.jobs[j] == s.jobs[j] && |Due(t)| < |Due(s)|
  {
    var s := RunFrom(cfg, START, trace);
    assert j in Due(s);
    var k := OldestAmong(s, Due(s));
    assert OldestDue(s, k) by {
      assert forall i | 0 <= i < |s.jobs| && Claimable(s, i) :: i in Due(s);
    }
    more := OldestServed(cfg, trace, w, k, outcome);
    SmallerDue(s, RunFrom(cfg, s, more), k, w);
  }

  lemma SmallerDue(s: State, t: State, k: nat, w: nat)
    requires OnlyJob(s, t, k, w) && Claimable(s, k) && !Claimable(t, k)
    ensures |Due(t)| < |Due(s)|
  {
    assert k in Due(s) && k !in Due(t);
    assert Due(t) <= Due(s);
    SmallerSet(Due(t), Due(s));
  }

  // From any reachable state, a worker that takes the oldest due job each time, finishing the older ones, comes to
  // hold any given due job.
  lemma {:induction false} DueJobReached(cfg: Config, trace: seq<Label>, w: nat, j: nat, outcome: RunStatus)
      returns (more: seq<Label>)
    requires var s := RunFrom(cfg, START, trace);
      w < |s.workers| && s.workers[w].Idle? && Claimable(s, j) && !outcome.Queued?
    ensures var s := RunFrom(cfg, START, trace);
      var t := RunFrom(cfg, s, more);
      && OldestFirst(cfg, s, more) && w < |t.workers| && j < |t.jobs|
      && t.workers[w] == Claimed(j, s.jobs[j].attempts + 1) && t.jobs[j].status.Processing?
    decreases |Due(RunFrom(cfg, START, trace))|
  {
    var s := RunFrom(cfg, START, trace);
    if OldestDue(s, j) {
      assert [] + [Claim(w, j)] == [Claim(w, j)];
      More(cfg, s, [], Claim(w, j));
      more := [Claim(w, j)];
    } else {
      var serve := OneFewer(cfg, trace, w, j, outcome);
      Concat(cfg, START, trace, serve);
      var rest := DueJobReached(cfg, trace + serve, w, j, outcome);
      Concat(cfg, s, serve, rest);
      more := serve + rest;
    }
  }

  lemma SmallerSet(a: set<nat>, b: set<nat>)
    requires a < b
    ensures |a| < |b|
  {
    var x :| x in b && x !in a;
    assert |b - {x}| == |b| - 1;
    SubsetCard(a, b - {x});
  }

  lemma {:induction false} SubsetCard(a: set<nat>, b: set<nat>)
    requires a <= b
    ensures |a| <= |b|
  {
    if x :| x in a {
      SubsetCard(a - {x}, b - {x});
    }
  }

  predicate Recoverable(job: Job) {
    job.status.Pending? || (job.status.Processing? && job.lockedAt.Some?)
  }

  // Wait until the job is due and its lock stale, and reap it if it is still processing.
  lemma MadeDue(cfg: Config, s: State, j: nat) returns (more: seq<Label>)
    requires j < |s.jobs| && s.runs[j].present && Recoverable(s.jobs[j])
    ensures var t := RunFrom(cfg, s, more);
      && OldestFirst(cfg, s, more) && Claimable(t, j) && t.jobs[j].attempts == s.jobs[j].attempts &&
        t.workers == s.workers
  {
    var job := s.jobs[j];
    var stale := if job.lockedAt.Some? then job.lockedAt.value + cfg.timeout + 1 else s.now;
    var wait := Tick(Max(s.now, Max(job.availableAt, stale)));
    assert [] + [wait] == [wait];
    More(cfg, s, [], wait);
    more := [wait];
    if job.status.Processing? {
      More(cfg, s, more, Reap(j));
      more := more + [Reap(j)];
    }
  }

  // No unfinished job is lost while it is pending, or processing under a lock: once it is due, or its lock stale
  // and reaped, any idle worker comes to hold it, even if the one that held it is gone.
  lemma NoStrandedJob(cfg: Config, trace: seq<Label>, w: nat, j: nat, outcome: RunStatus) returns (more: seq<Label>)
    requires var s := RunFrom(cfg, START, trace);
      w < |s.workers| && s.workers[w].Idle? && j < |s.jobs| && s.runs[j].present && Recoverable(s.jobs[j]) &&
        !outcome.Queued?
    ensures var s := RunFrom(cfg, START, trace);
      var t := RunFrom(cfg, s, more);
      && OldestFirst(cfg, s, more) && w < |t.workers| && j < |t.jobs|
      && t.workers[w] == Claimed(j, s.jobs[j].attempts + 1) && t.jobs[j].status.Processing?
  {
    var s := RunFrom(cfg, START, trace);
    var ready := MadeDue(cfg, s, j);
    Concat(cfg, START, trace, ready);
    var rest := DueJobReached(cfg, trace + ready, w, j, outcome);
    Concat(cfg, s, ready, rest);
    more := ready + rest;
  }

  // ---------------------------------------------------------------------------
  // No overtaking
  // ---------------------------------------------------------------------------

  // The job is due throughout.
  predicate Waits(cfg: Config, s: State, labels: seq<Label>, j: nat) {
    Claimable(RunFrom(cfg, s, labels), j) && (labels == [] || Waits(cfg, s, labels[..|labels| - 1], j))
  }

  predicate KeepsAge(a: State, b: State) {
    |a.jobs| <= |b.jobs| && forall k | 0 <= k < |a.jobs| :: b.jobs[k].availableAt == a.jobs[k].availableAt
  }

  // Attempts are unchanged on every job younger than j.
  predicate NotOvertaken(a: State, b: State, j: nat)
    requires KeepsAge(a, b) && j < |a.jobs|
  {
    forall k | 0 <= k < |b.jobs| && b.jobs[k].availableAt > a.jobs[j].availableAt ::
      b.jobs[k].attempts == if k < |a.jobs| then a.jobs[k].attempts else 0
  }

  lemma StepKeepsPlace(cfg: Config, a: State, b: State, l: Label, j: nat)
    requires KeepsAge(a, b) && j < |a.jobs| && NotOvertaken(a, b, j) && Claimable(b, j) && InOrder(cfg, b, l)
    ensures KeepsAge(a, Apply(cfg, b, l)) && NotOvertaken(a, Apply(cfg, b, l), j)
  {
  }

  // While a job is due, only jobs at least as old are claimed, and each of those no more often than its bound.
  lemma {:induction false} NoOvertaking(cfg: Config, trace: seq<Label>, more: seq<Label>, j: nat)
    requires var s := RunFrom(cfg, START, trace); OldestFirst(cfg, s, more) && Waits(cfg, s, more, j)
    ensures var s := RunFrom(cfg, START, trace);
      var t := RunFrom(cfg, s, more);
      && j < |s.jobs| && KeepsAge(s, t) && NotOvertaken(s, t, j)
      && forall k | 0 <= k < |t.jobs| :: t.jobs[k].attempts <= Max(1, cfg.maxAttempts) + t.jobs[k].reaps
  {
    var s := RunFrom(cfg, START, trace);
    if more == [] {
    } else {
      var front := more[..|more| - 1];
      NoOvertaking(cfg, trace, front, j);
      StepKeepsPlace(cfg, s, RunFrom(cfg, s, front), more[|more| - 1], j);
    }
    Concat(cfg, START, trace, more);
    forall k | 0 <= k < |RunFrom(cfg, s, more).jobs|
      ensures RunFrom(cfg, s, more).jobs[k].attempts <= Max(1, cfg.maxAttempts) + RunFrom(cfg, s, more).jobs[k].reaps
    {
      ClaimsBounded(cfg, trace + more, k);
    }
  }

  // Jobs enqueued since become available no earlier than they were enqueued.
  lemma {:induction false} LaterAges(cfg: Config, s: State, more: seq<Label>)
    ensures var t := RunFrom(cfg, s, more);
      s.now <= t.now && forall k | |s.jobs| <= k < |t.jobs| :: t.jobs[k].availableAt >= s.now
  {
    if more != [] {
      LaterAges(cfg, s, more[..|more| - 1]);
    }
  }

  // A job that is overdue is never passed by one enqueued later: none of those is claimed while it waits.
  lemma LaterJobsWait(cfg: Config, trace: seq<Label>, more: seq<Label>, j: nat)
    requires var s := RunFrom(cfg, START, trace); OldestFirst(cfg, s, more) && Waits(cfg, s, more, j)
    ensures var s := RunFrom(cfg, START, trace);
      var t := RunFrom(cfg, s, more);
      j < |s.jobs| && (s.jobs[j].availableAt < s.now ==> forall k | |s.jobs| <= k < |t.jobs| :: t.jobs[k].attempts == 0)
  {
    NoOvertaking(cfg, trace, more, j);
    LaterAges(cfg, RunFrom(cfg, START, trace), more);
  }

  // A job is due as soon as it is enqueued.
  lemma EnqueuedIsDue(cfg: Config, s: State)
    ensures var t := Step(cfg, s, Enqueue);
      && |t.jobs| == |s.jobs| + 1 && Claimable(t, |s.jobs|)
      && t.jobs[|s.jobs|].attempts == 0 && t.runs[|s.jobs|].status.Queued?
  {
  }

  function ClaimsIn(labels: seq<Label>): nat {
    if labels == [] then 0
    else ClaimsIn(labels[..|labels| - 1]) + if labels[|labels| - 1].Claim? then 1 else 0
  }

  // What the jobs that became available no later than that count for.
  function Older(age: int, f: Job -> int): Job -> int {
    (job: Job) => if job.availableAt <= age then f(job) else 0
  }

  function Caps(cfg: Config): Job -> int {
    (job: Job) => Cap(cfg, job)
  }

  lemma {:induction false} SumSame<T>(f: T -> int, a: seq<T>, b: seq<T>)
    requires |a| == |b| && forall i | 0 <= i < |a| :: f(a[i]) == f(b[i])
    ensures Sum(f, a) == Sum(f, b)
  {
    if a != [] {
      SumSame(f, a[..|a| - 1], b[..|b| - 1]);
    }
  }

  lemma OthersClaimNothing(cfg: Config, s: State, l: Label)
    requires Enabled(cfg, s, l) && !l.Claim? && !l.Enqueue?
    ensures var jobs := Apply(cfg, s, l).jobs;
      |jobs| == |s.jobs| && forall i | 0 <= i < |jobs| ::
        jobs[i].attempts == s.jobs[i].attempts && jobs[i].availableAt == s.jobs[i].availableAt
  {
  }

  lemma ClaimTakesOlder(cfg: Config, s: State, l: Label, age: int)
    requires Enabled(cfg, s, l) && (l.Claim? ==> s.jobs[l.job].availableAt <= age)
    ensures var f := Older(age, Attempts());
      Sum(f, Apply(cfg, s, l).jobs) == Sum(f, s.jobs) + if l.Claim? then 1 else 0
  {
    var jobs, f := Apply(cfg, s, l).jobs, Older(age, Attempts());
    if l.Enqueue? {
      SumAppend(f, s.jobs, jobs[|s.jobs|]);
    } else if l.Claim? {
      SumUpdate(f, s.jobs, l.job, jobs[l.job]);
    } else {
      OthersClaimNothing(cfg, s, l);
      SumSame(f, s.jobs, jobs);
    }
  }

  lemma {:induction false} OlderCapped(cfg: Config, age: int, jobs: seq<Job>)
    requires forall job | job in jobs :: JobInv(cfg, job)
    ensures Sum(Older(age, Attempts()), jobs) <= Sum(Older(age, Caps(cfg)), jobs)
  {
    if jobs != [] {
      var n := |jobs| - 1;
      OlderCapped(cfg, age, jobs[..n]);
      assert jobs[n] in jobs;
      JobCapped(cfg, jobs[n]);
    }
  }

  lemma {:induction false} ClaimsTakeOlder(cfg: Config, s: State, more: seq<Label>, j: nat, age: int)
    requires OldestFirst(cfg, s, more) && Waits(cfg, s, more, j) && j < |s.jobs| && s.jobs[j].availableAt == age
    ensures var f, t := Older(age, Attempts()), RunFrom(cfg, s, more);
      t.jobs[j].availableAt == age && ClaimsIn(more) + Sum(f, s.jobs) == Sum(f, t.jobs)
  {
    if more != [] {
      var front := more[..|more| - 1];
      ClaimsTakeOlder(cfg, s, front, j, age);
      ClaimTakesOlder(cfg, RunFrom(cfg, s, front), more[|more| - 1], age);
    }
  }

  lemma {:induction false} WaitsFromStart(cfg: Config, s: State, more: seq<Label>, j: nat)
    requires Waits(cfg, s, more, j)
    ensures Claimable(s, j)
  {
    if more != [] {
      WaitsFromStart(cfg, s, more[..|more| - 1], j);
    }
  }

  // Every claim made while a job is due takes a job at least as old. So before its turn there are at most as many as
  // the maximum and the reapings still leave to those.
  lemma ClaimsBeforeTurn(cfg: Config, trace: seq<Label>, more: seq<Label>, j: nat)
    requires var s := RunFrom(cfg, START, trace); OldestFirst(cfg, s, more) && Waits(cfg, s, more, j)
    ensures var s := RunFrom(cfg, START, trace);
      j < |s.jobs| &&
        ClaimsIn(more) <= Sum(Older(s.jobs[j].availableAt, Caps(cfg)), RunFrom(cfg, s, more).jobs)
          - Sum(Older(s.jobs[j].availableAt, Attempts()), s.jobs)
  {
    var s := RunFrom(cfg, START, trace);
    WaitsFromStart(cfg, s, more, j);
    ClaimsTakeOlder(cfg, s, more, j, s.jobs[j].availableAt);
    Concat(cfg, START, trace, more);
    RunKeepsClaims(cfg, trace + more);
    OlderCapped(cfg, s.jobs[j].availableAt, RunFrom(cfg, s, more).jobs);
  }
}
