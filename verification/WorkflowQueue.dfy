/**
 The durable job queue and the run executor: apps/api/captureos/workflows/queue.py and runner.py.

 Workers claim a pending job in one transaction, execute its run in a second and record the job's fate in a
 third, which reads the row and later writes only the columns it changed; a reaper requeues jobs that stayed
 `processing` too long, whether or not their worker is still alive. A run of the system is any list of labels: a
 label whose guard fails changes nothing. Job j belongs to run j, the two being inserted together and unique per
 run.
 */
module WorkflowQueue {
  import opened Wrappers
  import opened Sums

  datatype JobStatus = Pending | Processing | Done | Failed

  // `reaps` and `retried` (the claim numbers whose failure put the job back) are history, kept only to
  // state the counting argument.
  datatype Job = Job(status: JobStatus, attempts: nat, lockedAt: Option<int>, availableAt: int,
                     reaps: nat, retried: set<nat>)

  datatype RunStatus = Queued | Succeeded | RunFailed | NeedsInput

  // `commits` counts the transactions that committed an outcome of the run. A deleted run takes its
  // job row with it.
  datatype Run = Run(present: bool, status: RunStatus, commits: nat)

  predicate Terminal(r: Run) {
    !r.status.Queued?
  }

  datatype Worker =
    | Idle
    | Claimed(job: nat, attempt: nat)
    | Executing(job: nat, attempt: nat)   // holds the row lock of the run
    | Returned(job: nat, attempt: nat)    // execute_workflow_run came back normally
    | Raised(job: nat, attempt: nat)      // it raised, or recording `done` did; the transaction rolled back
    // The row was read as (saw, sawLock); columns that already hold their new value will not be written.
    | Recording(job: nat, attempt: nat, target: JobStatus, saw: JobStatus, sawLock: bool)

  datatype System = System(now: int, jobs: seq<Job>, runs: seq<Run>, workers: seq<Worker>)

  predicate WellTyped(s: System) {
    && |s.jobs| == |s.runs|
    && forall w | 0 <= w < |s.workers| && !s.workers[w].Idle? :: s.workers[w].job < |s.jobs|
  }

  type State = s: System | WellTyped(s) witness System(0, [], [], [])

  datatype Config = Config(maxAttempts: int, timeout: int)

  datatype Label =
    | Tick(to: int)
    | Hire
    | Enqueue
    | Delete(job: nat)
    | Reap(job: nat)
    | Claim(w: nat, job: nat)
    | Execute(w: nat)
    | Commit(w: nat, outcome: RunStatus)
    | Raise(w: nat)
    | Read(w: nat)
    | Write(w: nat)
    | Crash(w: nat)

  predicate RunLocked(s: State, j: nat) {
    exists w :: 0 <= w < |s.workers| && s.workers[w].Executing? && s.workers[w].job == j
  }

  predicate Claimable(s: State, j: nat) {
    && j < |s.jobs| && s.runs[j].present
    && s.jobs[j].status.Pending? && s.jobs[j].availableAt <= s.now
  }

  predicate Reapable(cfg: Config, s: State, j: nat) {
    && j < |s.jobs| && s.runs[j].present
    && s.jobs[j].status.Processing? && s.jobs[j].lockedAt.Some?
    && s.jobs[j].lockedAt.value < s.now - cfg.timeout
  }

  predicate Enabled(cfg: Config, s: State, l: Label) {
    match l
    case Tick(to) => s.now <= to
    case Hire => true
    case Enqueue => true
    case Delete(j) => j < |s.runs| && s.runs[j].present && !RunLocked(s, j)
    case Reap(j) => Reapable(cfg, s, j)
    // Any due job: the oldest may be locked by a claim that is then rolled back, and is skipped meanwhile.
    case Claim(w, j) => w < |s.workers| && s.workers[w].Idle? && Claimable(s, j)
    case Execute(w) => w < |s.workers| && s.workers[w].Claimed? && !RunLocked(s, s.workers[w].job)
    case Commit(w, outcome) => w < |s.workers| && s.workers[w].Executing? && !outcome.Queued?
    case Raise(w) => w < |s.workers| && Catches(s.workers[w])
    case Read(w) => w < |s.workers| && (s.workers[w].Returned? || s.workers[w].Raised?)
    case Write(w) => w < |s.workers| && s.workers[w].Recording?
    case Crash(w) => w < |s.workers| && !s.workers[w].Idle?
  }

  // The statements inside the `try`: execution, and recording `done`.
  predicate Catches(worker: Worker) {
    worker.Claimed? || worker.Executing? || worker.Returned? || (worker.Recording? && worker.target.Done?)
  }

  // The status that _finish_job or _retry_job is called to record.
  function Target(cfg: Config, worker: Worker): JobStatus
    requires worker.Returned? || worker.Raised?
  {
    if worker.Returned? then Done else if worker.attempt >= cfg.maxAttempts then Failed else Pending
  }

  // The UPDATE: status and lock are written only where they differ from what was read, over whatever the row
  // holds by now.
  function Recorded(worker: Worker, job: Job): Job
    requires worker.Recording?
  {
    var job := if worker.target != worker.saw then job.(status := worker.target) else job;
    var job := if worker.sawLock then job.(lockedAt := None) else job;
    if worker.target.Pending? && !worker.saw.Pending? then job.(retried := job.retried + {worker.attempt}) else job
  }

  function Apply(cfg: Config, s: State, l: Label): (s': State)
    requires Enabled(cfg, s, l)
    ensures |s'.jobs| >= |s.jobs| && |s'.workers| >= |s.workers|
  {
    match l
    case Tick(to) => s.(now := to)
    case Hire => s.(workers := s.workers + [Idle])
    case Enqueue =>
      s.(jobs := s.jobs + [Job(Pending, 0, None, s.now, 0, {})], runs := s.runs + [Run(true, Queued, 0)])
    case Delete(j) => s.(runs := s.runs[j := s.runs[j].(present := false)])
    case Reap(j) =>
      s.(jobs := s.jobs[j := s.jobs[j].(status := Pending, lockedAt := None, reaps := s.jobs[j].reaps + 1)])
    case Claim(w, j) =>
      var a := s.jobs[j].attempts + 1;
      s.(jobs := s.jobs[j := s.jobs[j].(status := Processing, attempts := a, lockedAt := Some(s.now))],
         workers := s.workers[w := Claimed(j, a)])
    case Execute(w) =>
      var j, a := s.workers[w].job, s.workers[w].attempt;
      // A missing or terminal run is left alone.
      s.(workers := s.workers[w := if !s.runs[j].present || Terminal(s.runs[j]) then Returned(j, a)
        else Executing(j, a)])
    case Commit(w, outcome) =>
      var j, a := s.workers[w].job, s.workers[w].attempt;
      s.(runs := s.runs[j := s.runs[j].(status := outcome, commits := s.runs[j].commits + 1)],
         workers := s.workers[w := Returned(j, a)])
    case Raise(w) => s.(workers := s.workers[w := Raised(s.workers[w].job, s.workers[w].attempt)])
    case Read(w) =>
      var j, job := s.workers[w].job, s.jobs[s.workers[w].job];
      s.(workers := s.workers[w := if !s.runs[j].present then Idle
           else Recording(j, s.workers[w].attempt, Target(cfg, s.workers[w]), job.status, job.lockedAt.Some?)])
    case Write(w) =>
      var worker := s.workers[w];
      if s.runs[worker.job].present then
        s.(jobs := s.jobs[worker.job := Recorded(worker, s.jobs[worker.job])], workers := s.workers[w := Idle])
      else
        // The row is gone and the UPDATE raises.
        s.(workers := s.workers[w := if worker.target.Done? then Raised(worker.job, worker.attempt) else Idle])
    case Crash(w) => s.(workers := s.workers[w := Idle])
  }

  function Step(cfg: Config, s: State, l: Label): State {
    if Enabled(cfg, s, l) then Apply(cfg, s, l) else s
  }

  function RunFrom(cfg: Config, s: State, labels: seq<Label>): (s': State)
    ensures |s'.jobs| >= |s.jobs| && |s'.workers| >= |s.workers|
  {
    if labels == [] then s else Step(cfg, RunFrom(cfg, s, labels[..|labels| - 1]), labels[|labels| - 1])
  }

  const START: State := System(0, [], [], [])

  // ---------------------------------------------------------------------------
  // Exactly-once effect
  // ---------------------------------------------------------------------------

  predicate Settled(r: Run) {
    !r.present || Terminal(r)
  }

  predicate CommitsCount(r: Run) {
    r.commits == if Terminal(r) then 1 else 0
  }

  // What a worker knows of the run of its job.
  predicate Knows(worker: Worker, runs: seq<Run>) {
    !worker.Idle? ==> worker.job < |runs| && match worker
      case Executing(j, _) => !Settled(runs[j])
      case Returned(j, _) => Settled(runs[j])
      case Recording(j, _, target, _, _) => target.Done? ==> Settled(runs[j])
      case _ => true
  }

  predicate ExecuteApart(v: Worker, w: Worker) {
    v.Executing? && w.Executing? ==> v.job != w.job
  }

  ghost predicate RunsInv(s: State) {
    && (forall j | 0 <= j < |s.runs| :: CommitsCount(s.runs[j]))
    && (forall w | 0 <= w < |s.workers| :: Knows(s.workers[w], s.runs))
    && (forall v, w | 0 <= v < w < |s.workers| :: ExecuteApart(s.workers[v], s.workers[w]))
  }

  lemma StepKeepsKnowledge(cfg: Config, s: State, l: Label, w: nat)
    requires RunsInv(s) && Enabled(cfg, s, l) && w < |Apply(cfg, s, l).workers|
    ensures Knows(Apply(cfg, s, l).workers[w], Apply(cfg, s, l).runs)
  {
    if w < |s.workers| {
      assert Knows(s.workers[w], s.runs);
      if l.Commit? && w != l.w {
        assert ExecuteApart(s.workers[Min(w, l.w)], s.workers[Max(w, l.w)]);
      }
    }
  }

  lemma StepKeepsRuns(cfg: Config, s: State, l: Label)
    requires RunsInv(s)
    ensures RunsInv(Step(cfg, s, l))
  {
    if Enabled(cfg, s, l) {
      var s' := Apply(cfg, s, l);
      forall w | 0 <= w < |s'.workers| ensures Knows(s'.workers[w], s'.runs) {
        StepKeepsKnowledge(cfg, s, l, w);
      }
      forall v, w | 0 <= v < w < |s'.workers| ensures ExecuteApart(s'.workers[v], s'.workers[w]) {
        assert w < |s.workers| ==> ExecuteApart(s.workers[v], s.workers[w]);
      }
      if l.Commit? {
        assert Knows(s.workers[l.w], s.runs);
      }
    }
  }

  lemma {:induction false} RunKeepsRuns(cfg: Config, labels: seq<Label>)
    ensures RunsInv(RunFrom(cfg, START, labels))
  {
    if labels != [] {
      RunKeepsRuns(cfg, labels[..|labels| - 1]);
      StepKeepsRuns(cfg, RunFrom(cfg, START, labels[..|labels| - 1]), labels[|labels| - 1]);
    }
  }

  // However jobs are requeued, retried and executed twice, a run's outcome is committed at most once,
  // and exactly once when the run is terminal.
  lemma CommitsAtMostOnce(cfg: Config, labels: seq<Label>, j: nat)
    ensures var s := RunFrom(cfg, START, labels);
      j < |s.runs| ==> s.runs[j].commits <= 1 && (s.runs[j].commits == 1 <==> Terminal(s.runs[j]))
  {
    RunKeepsRuns(cfg, labels);
  }

  lemma TerminalStays(cfg: Config, s: State, l: Label, j: nat)
    requires RunsInv(s) && j < |s.runs| && Terminal(s.runs[j])
    ensures Step(cfg, s, l).runs[j].status == s.runs[j].status && Step(cfg, s, l).runs[j].commits == s.runs[j].commits
  {
    if Enabled(cfg, s, l) && l.Commit? {
      assert Knows(s.workers[l.w], s.runs);
    }
  }

  // A committed terminal status is final.
  lemma {:induction false} TerminalForever(cfg: Config, labels: seq<Label>, more: seq<Label>, j: nat)
    requires var s := RunFrom(cfg, START, labels); j < |s.runs| && Terminal(s.runs[j])
    ensures var s, s' := RunFrom(cfg, START, labels), RunFrom(cfg, START, labels + more);
      j < |s'.runs| && s'.runs[j].status == s.runs[j].status && s'.runs[j].commits == s.runs[j].commits
  {
    if more == [] {
      assert labels + more == labels;
    } else {
      var rest := more[..|more| - 1];
      TerminalForever(cfg, labels, rest, j);
      RunKeepsRuns(cfg, labels + rest);
      TerminalStays(cfg, RunFrom(cfg, START, labels + rest), more[|more| - 1], j);
      assert (labels + more)[..|labels + more| - 1] == labels + rest;
    }
  }

  // ---------------------------------------------------------------------------
  // Bounded claims
  // ---------------------------------------------------------------------------

  ghost predicate JobInv(cfg: Config, job: Job) {
    && (forall a | a in job.retried :: 1 <= a < cfg.maxAttempts && a <= job.attempts)
    && job.attempts + (if job.status.Pending? then 1 else 0) <= 1 + |job.retried| + job.reaps
    && (job.status.Failed? ==> job.attempts >= cfg.maxAttempts)
  }

  // A live worker's claim number was issued and has not been spent on a retry.
  ghost predicate ClaimOpen(cfg: Config, worker: Worker, jobs: seq<Job>) {
    !worker.Idle? ==>
      && worker.job < |jobs|
      && 1 <= worker.attempt <= jobs[worker.job].attempts
      && worker.attempt !in jobs[worker.job].retried
      && (worker.Recording? ==> TargetFits(cfg, worker.attempt, worker.target))
  }

  predicate TargetFits(cfg: Config, attempt: nat, target: JobStatus) {
    match target
    case Pending => attempt < cfg.maxAttempts
    case Failed => attempt >= cfg.maxAttempts
    case Processing => false
    case Done => true
  }

  predicate ClaimsDiffer(v: Worker, w: Worker) {
    !v.Idle? && !w.Idle? ==> (v.job, v.attempt) != (w.job, w.attempt)
  }

  ghost predicate ClaimsInv(cfg: Config, s: State) {
    && (forall j | 0 <= j < |s.jobs| :: JobInv(cfg, s.jobs[j]))
    && (forall w | 0 <= w < |s.workers| :: ClaimOpen(cfg, s.workers[w], s.jobs))
    && (forall v, w | 0 <= v < w < |s.workers| :: ClaimsDiffer(s.workers[v], s.workers[w]))
  }

  lemma WrittenJob(cfg: Config, worker: Worker, job: Job)
    requires worker.Recording? && JobInv(cfg, job) && TargetFits(cfg, worker.attempt, worker.target)
    requires 1 <= worker.attempt <= job.attempts && worker.attempt !in job.retried
    ensures JobInv(cfg, Recorded(worker, job))
    ensures Recorded(worker, job).attempts == job.attempts
    ensures Recorded(worker, job).retried <= job.retried + {worker.attempt}
  {
  }

  lemma WriteKeepsClaims(cfg: Config, s: State, w: nat)
    requires ClaimsInv(cfg, s) && Enabled(cfg, s, Write(w)) && s.runs[s.workers[w].job].present
    ensures ClaimsInv(cfg, Apply(cfg, s, Write(w)))
  {
    var j := s.workers[w].job;
    var written, workers := Recorded(s.workers[w], s.jobs[j]), s.workers[w := Idle];
    assert Apply(cfg, s, Write(w)) == s.(jobs := s.jobs[j := written], workers := workers);
    assert ClaimOpen(cfg, s.workers[w], s.jobs) && JobInv(cfg, s.jobs[j]);
    WrittenJob(cfg, s.workers[w], s.jobs[j]);
    forall v | 0 <= v < |workers| ensures ClaimOpen(cfg, workers[v], s.jobs[j := written]) {
      assert ClaimOpen(cfg, s.workers[v], s.jobs);
      assert v != w ==> ClaimsDiffer(s.workers[Min(v, w)], s.workers[Max(v, w)]);
    }
    forall u, v | 0 <= u < v < |workers| ensures ClaimsDiffer(workers[u], workers[v]) {
      assert ClaimsDiffer(s.workers[u], s.workers[v]);
    }
  }

  lemma ClaimKeepsClaims(cfg: Config, s: State, w: nat, j: nat)
    requires ClaimsInv(cfg, s) && Enabled(cfg, s, Claim(w, j))
    ensures ClaimsInv(cfg, Apply(cfg, s, Claim(w, j)))
  {
    var s' := Apply(cfg, s, Claim(w, j));
    assert JobInv(cfg, s.jobs[j]);
    forall v | 0 <= v < |s'.workers| ensures ClaimOpen(cfg, s'.workers[v], s'.jobs) {
      assert ClaimOpen(cfg, s.workers[v], s.jobs);
    }
    forall u, v | 0 <= u < v < |s'.workers| ensures ClaimsDiffer(s'.workers[u], s'.workers[v]) {
      assert ClaimsDiffer(s.workers[u], s.workers[v]);
      assert ClaimOpen(cfg, s.workers[u], s.jobs) && ClaimOpen(cfg, s.workers[v], s.jobs);
    }
  }

  lemma StepKeepsClaims(cfg: Config, s: State, l: Label)
    requires ClaimsInv(cfg, s)
    ensures ClaimsInv(cfg, Step(cfg, s, l))
  {
    if Enabled(cfg, s, l) {
      if l.Write? && s.runs[s.workers[l.w].job].present {
        WriteKeepsClaims(cfg, s, l.w);
      } else if l.Claim? {
        ClaimKeepsClaims(cfg, s, l.w, l.job);
      } else {
        var s' := Apply(cfg, s, l);
        forall v | 0 <= v < |s'.workers| ensures ClaimOpen(cfg, s'.workers[v], s'.jobs) {
          assert v < |s.workers| ==> ClaimOpen(cfg, s.workers[v], s.jobs);
        }
        forall u, v | 0 <= u < v < |s'.workers| ensures ClaimsDiffer(s'.workers[u], s'.workers[v]) {
          assert v < |s.workers| ==> ClaimsDiffer(s.workers[u], s.workers[v]);
        }
      }
    }
  }

  lemma {:induction false} RunKeepsClaims(cfg: Config, labels: seq<Label>)
    ensures ClaimsInv(cfg, RunFrom(cfg, START, labels))
  {
    if labels != [] {
      RunKeepsClaims(cfg, labels[..|labels| - 1]);
      StepKeepsClaims(cfg, RunFrom(cfg, START, labels[..|labels| - 1]), labels[|labels| - 1]);
    }
  }

  lemma {:induction false} RangeCard(s: set<nat>, n: nat)
    requires forall a | a in s :: 1 <= a <= n
    ensures |s| <= n
  {
    if n == 0 {
      assert s == {};
    } else {
      RangeCard(s - {n}, n - 1);
    }
  }

  function Cap(cfg: Config, job: Job): nat {
    Max(1, cfg.maxAttempts) + job.reaps
  }

  lemma JobCapped(cfg: Config, job: Job)
    requires JobInv(cfg, job)
    ensures job.attempts + (if job.status.Pending? then 1 else 0) <= Cap(cfg, job)
  {
    RangeCard(job.retried, Max(1, cfg.maxAttempts) - 1);
  }

  // Each retry consumes a claim number below the maximum, so beyond the configured number of attempts
  // a job is claimed at most once per reaping. With a maximum below one it still gets one attempt.
  lemma ClaimsBounded(cfg: Config, labels: seq<Label>, j: nat)
    ensures var s := RunFrom(cfg, START, labels);
      j < |s.jobs| ==> s.jobs[j].attempts <= Max(1, cfg.maxAttempts) + s.jobs[j].reaps
  {
    RunKeepsClaims(cfg, labels);
    var s := RunFrom(cfg, START, labels);
    if j < |s.jobs| {
      JobCapped(cfg, s.jobs[j]);
    }
  }

  // Recording anything about a job whose row is gone changes no job; recording `done` raises.
  lemma GoneRow(cfg: Config, s: State, w: nat)
    requires Enabled(cfg, s, Write(w)) && !s.runs[s.workers[w].job].present
    ensures var t := Step(cfg, s, Write(w));
      && t.jobs == s.jobs && t.runs == s.runs
      && (t.workers[w].Raised? <==> s.workers[w].target.Done?) && (t.workers[w].Idle? <==> !s.workers[w].target.Done?)
  {
  }

  // ---------------------------------------------------------------------------
  // The reaper's patience
  // ---------------------------------------------------------------------------

  ghost predicate LockedSince(cfg: Config, s: State, t: State, j: nat) {
    && s.now <= t.now && j < |s.jobs| && j < |t.jobs|
    && (t.jobs[j].lockedAt.Some? ==> s.now <= t.jobs[j].lockedAt.value)
    && (t.now <= s.now + cfg.timeout ==> t.jobs[j].reaps == s.jobs[j].reaps)
  }

  lemma StepKeepsPatience(cfg: Config, s: State, t: State, l: Label, j: nat)
    requires LockedSince(cfg, s, t, j)
    ensures LockedSince(cfg, s, Step(cfg, t, l), j)
  {
  }

  // A job that was just claimed is not requeued before the timeout has passed, whatever else happens to it.
  lemma {:induction false} NotReapedEarly(cfg: Config, s: State, more: seq<Label>, j: nat)
    requires j < |s.jobs| && s.jobs[j].lockedAt == Some(s.now)
    ensures LockedSince(cfg, s, RunFrom(cfg, s, more), j)
  {
    if more != [] {
      NotReapedEarly(cfg, s, more[..|more| - 1], j);
      StepKeepsPatience(cfg, s, RunFrom(cfg, s, more[..|more| - 1]), more[|more| - 1], j);
    }
  }

  // ---------------------------------------------------------------------------
  // Status tells the truth
  // ---------------------------------------------------------------------------

  predicate DoneMeansSettled(s: State) {
    forall j | 0 <= j < |s.jobs| && s.jobs[j].status.Done? :: Settled(s.runs[j])
  }

  lemma {:induction false} RunKeepsDoneSettled(cfg: Config, labels: seq<Label>)
    ensures DoneMeansSettled(RunFrom(cfg, START, labels))
  {
    if labels != [] {
      var s, l := RunFrom(cfg, START, labels[..|labels| - 1]), labels[|labels| - 1];
      RunKeepsDoneSettled(cfg, labels[..|labels| - 1]);
      RunKeepsRuns(cfg, labels[..|labels| - 1]);
      if l.Write? && l.w < |s.workers| {
        assert Knows(s.workers[l.w], s.runs);
      }
    }
  }

  // In every reachable state a job is done only if its run is terminal or gone, and failed only after at least
  // the configured number of attempts.
  lemma StatusTrue(cfg: Config, labels: seq<Label>, j: nat)
    ensures var s := RunFrom(cfg, START, labels);
      j < |s.jobs| ==>
        && (s.jobs[j].status.Done? ==> Settled(s.runs[j]))
        && (s.jobs[j].status.Failed? ==> s.jobs[j].attempts >= cfg.maxAttempts)
  {
    RunKeepsDoneSettled(cfg, labels);
    RunKeepsClaims(cfg, labels);
    var s := RunFrom(cfg, START, labels);
    if j < |s.jobs| {
      assert JobInv(cfg, s.jobs[j]);
    }
  }

  // ---------------------------------------------------------------------------
  // Termination
  // ---------------------------------------------------------------------------

  predicate WorkerLabel(l: Label) {
    l.Claim? || l.Execute? || l.Commit? || l.Raise? || l.Read? || l.Write? || l.Crash?
  }

  // Steps that workers really took.
  function Work(cfg: Config, labels: seq<Label>): nat {
    if labels == [] then 0
    else
      var front, l := labels[..|labels| - 1], labels[|labels| - 1];
      var s := RunFrom(cfg, START, front);
      Work(cfg, front) + if WorkerLabel(l) && Enabled(cfg, s, l) then 1 else 0
  }

  function StepsLeft(): Worker -> int {
    (w: Worker) => match w
      case Idle => 0
      case Recording(_, _, target, _, _) => if target.Done? then 3 else 1
      case Raised(_, _) => 2
      case Returned(_, _) => 4
      case Executing(_, _) => 5
      case Claimed(_, _) => 6
  }

  function Attempts(): Job -> int {
    (job: Job) => job.attempts
  }

  function Reaps(): Job -> int {
    (job: Job) => job.reaps
  }

  lemma JobsPay(cfg: Config, s: State, l: Label)
    requires Enabled(cfg, s, l)
    ensures Sum(Attempts(), Apply(cfg, s, l).jobs) == Sum(Attempts(), s.jobs) + if l.Claim? then 1 else 0
  {
    var s' := Apply(cfg, s, l);
    if l.Enqueue? {
      SumAppend(Attempts(), s.jobs, s'.jobs[|s.jobs|]);
    } else if l.Claim? || l.Reap? || l.Write? {
      var j := if l.Write? then s.workers[l.w].job else l.job;
      SumUpdate(Attempts(), s.jobs, j, s'.jobs[j]);
      assert s'.jobs == s.jobs[j := s'.jobs[j]];
    }
  }

  lemma WorkersMove(cfg: Config, s: State, l: Label)
    requires Enabled(cfg, s, l)
    ensures var after := Sum(StepsLeft(), Apply(cfg, s, l).workers);
      after <= Sum(StepsLeft(), s.workers) + (if l.Claim? then 6 else if WorkerLabel(l) then -1 else 0)
  {
    var s' := Apply(cfg, s, l);
    if WorkerLabel(l) {
      SumUpdate(StepsLeft(), s.workers, l.w, s'.workers[l.w]);
    } else if l.Hire? {
      SumAppend(StepsLeft(), s.workers, Idle);
    }
  }

  // Every worker step is paid for by a claim, seven to each.
  lemma {:induction false} WorkPaid(cfg: Config, labels: seq<Label>)
    ensures var s := RunFrom(cfg, START, labels);
      Work(cfg, labels) + Sum(StepsLeft(), s.workers) <= 7 * Sum(Attempts(), s.jobs)
  {
    if labels != [] {
      var n := |labels| - 1;
      WorkPaid(cfg, labels[..n]);
      var s := RunFrom(cfg, START, labels[..n]);
      if Enabled(cfg, s, labels[n]) {
        JobsPay(cfg, s, labels[n]);
        WorkersMove(cfg, s, labels[n]);
      }
    }
  }

  // As many claims as the configured maximum and the reapings permit.
  function Permitted(cfg: Config, jobs: seq<Job>): int {
    if jobs == [] then 0 else Permitted(cfg, jobs[..|jobs| - 1]) + Cap(cfg, jobs[|jobs| - 1])
  }

  // The maximum for each job, and one more for each reaping.
  lemma {:induction false} PermittedTotal(cfg: Config, jobs: seq<Job>)
    ensures Permitted(cfg, jobs) == Max(1, cfg.maxAttempts) * |jobs| + Sum(Reaps(), jobs)
  {
    if jobs != [] {
      var n := |jobs| - 1;
      PermittedTotal(cfg, jobs[..n]);
      assert Max(1, cfg.maxAttempts) * (n + 1) == Max(1, cfg.maxAttempts) * n + Max(1, cfg.maxAttempts);
    }
  }

  lemma {:induction false} AttemptsPermitted(cfg: Config, jobs: seq<Job>)
    requires forall job | job in jobs :: JobInv(cfg, job)
    ensures Sum(Attempts(), jobs) <= Permitted(cfg, jobs)
  {
    if jobs != [] {
      var n := |jobs| - 1;
      AttemptsPermitted(cfg, jobs[..n]);
      assert jobs[n] in jobs;
      JobCapped(cfg, jobs[n]);
    }
  }

  lemma WorkWithin(cfg: Config, s: State, work: nat)
    requires work + Sum(StepsLeft(), s.workers) <= 7 * Sum(Attempts(), s.jobs) && ClaimsInv(cfg, s)
    ensures work <= 7 * Permitted(cfg, s.jobs)
  {
    SumNonNegative(StepsLeft(), s.workers);
    AttemptsPermitted(cfg, s.jobs);
  }

  // The system cannot be kept busy for ever: with finitely many jobs and reapings, all workers together
  // take at most seven steps per permitted claim.
  lemma WorkBounded(cfg: Config, labels: seq<Label>)
    ensures Work(cfg, labels) <= 7 * Permitted(cfg, RunFrom(cfg, START, labels).jobs)
  {
    WorkPaid(cfg, labels);
    RunKeepsClaims(cfg, labels);
    WorkWithin(cfg, RunFrom(cfg, START, labels), Work(cfg, labels));
  }
}
