/**
 What requeuing costs, apps/api/captureos/workflows/queue.py: exactly when a job is held twice, claimed twice,
 reopened after `done`, or stranded, in terms of whether the reaper runs and of the configured maximum of attempts.
 */
module WorkflowLimits {
  import opened Wrappers
  import opened WorkflowQueue
  import opened WorkflowFair

  predicate Allowed(reaping: bool, labels: seq<Label>) {
    reaping || forall l | l in labels :: !l.Reap?
  }

  ghost predicate Reachable(cfg: Config, reaping: bool, s: State) {
    exists labels :: Allowed(reaping, labels) && RunFrom(cfg, START, labels) == s
  }

  predicate HeldTwice(s: State, v: nat, w: nat) {
    v < w < |s.workers| && !s.workers[v].Idle? && !s.workers[w].Idle? && s.workers[v].job == s.workers[w].job
  }

  predicate Reopens(cfg: Config, s: State, l: Label, j: nat) {
    j < |s.jobs| && s.jobs[j].status.Done? && Step(cfg, s, l).jobs[j].status.Pending?
  }

  predicate ClaimedAtMostOnce(s: State, j: nat) {
    j < |s.jobs| ==> s.jobs[j].attempts <= 1
  }

  // `locked_at` tells the status.
  predicate LockAgrees(s: State, j: nat) {
    j < |s.jobs| ==> (s.jobs[j].status.Processing? <==> s.jobs[j].lockedAt.Some?)
  }

  predicate ProcessingLocked(s: State, j: nat) {
    j < |s.jobs| && s.jobs[j].status.Processing? ==> s.jobs[j].lockedAt.Some?
  }

  // Neither claimable nor reapable nor held, though its run has not ended.
  predicate Stranded(s: State, j: nat) {
    && j < |s.jobs| && !Settled(s.runs[j])
    && s.jobs[j].status.Processing? && s.jobs[j].lockedAt.None?
    && forall w | 0 <= w < |s.workers| :: s.workers[w].Idle? || s.workers[w].job != j
  }

  // ---------------------------------------------------------------------------
  // Without the reaper
  // ---------------------------------------------------------------------------

  // A live worker is the one that made its job `processing`, and sees it so.
  predicate Holds(worker: Worker, jobs: seq<Job>) {
    !worker.Idle? ==>
      && worker.job < |jobs| && jobs[worker.job].status.Processing?
      && (worker.Recording? ==> worker.saw.Processing? && worker.sawLock)
  }

  predicate JobsApart(v: Worker, w: Worker) {
    !v.Idle? && !w.Idle? ==> v.job != w.job
  }

  predicate LockTrue(job: Job) {
    (job.status.Processing? <==> job.lockedAt.Some?) && job.reaps == 0
  }

  ghost predicate Exclusive(s: State) {
    && (forall j | 0 <= j < |s.jobs| :: LockTrue(s.jobs[j]))
    && (forall w | 0 <= w < |s.workers| :: Holds(s.workers[w], s.jobs))
    && (forall v, w | 0 <= v < w < |s.workers| :: JobsApart(s.workers[v], s.workers[w]))
  }

  lemma HolderMoves(cfg: Config, s: State, l: Label, w: nat)
    requires Exclusive(s) && ClaimsInv(cfg, s) && Enabled(cfg, s, l) && !l.Reap? && w < |Apply(cfg, s, l).workers|
    ensures Holds(Apply(cfg, s, l).workers[w], Apply(cfg, s, l).jobs)
  {
    if w < |s.workers| {
      assert Holds(s.workers[w], s.jobs);
      if WorkerLabel(l) && w != l.w {
        assert JobsApart(s.workers[Min(w, l.w)], s.workers[Max(w, l.w)]);
      }
      assert !s.workers[w].Idle? ==> LockTrue(s.jobs[s.workers[w].job]);
    }
  }

  lemma LocksStayTrue(cfg: Config, s: State, l: Label, j: nat)
    requires Exclusive(s) && ClaimsInv(cfg, s) && Enabled(cfg, s, l) && !l.Reap? && j < |Apply(cfg, s, l).jobs|
    ensures LockTrue(Apply(cfg, s, l).jobs[j])
  {
    if j < |s.jobs| {
      assert LockTrue(s.jobs[j]);
      if l.Write? {
        assert Holds(s.workers[l.w], s.jobs) && ClaimOpen(cfg, s.workers[l.w], s.jobs);
      }
    }
  }

  lemma StepKeepsExclusive(cfg: Config, s: State, l: Label)
    requires Exclusive(s) && ClaimsInv(cfg, s) && !l.Reap?
    ensures Exclusive(Step(cfg, s, l))
  {
    if Enabled(cfg, s, l) {
      var s' := Apply(cfg, s, l);
      forall j | 0 <= j < |s'.jobs| ensures LockTrue(s'.jobs[j]) {
        LocksStayTrue(cfg, s, l, j);
      }
      forall w | 0 <= w < |s'.workers| ensures Holds(s'.workers[w], s'.jobs) {
        HolderMoves(cfg, s, l, w);
      }
      forall v, w | 0 <= v < w < |s'.workers| ensures JobsApart(s'.workers[v], s'.workers[w]) {
        if w < |s.workers| {
          assert JobsApart(s.workers[v], s.workers[w]);
          assert Holds(s.workers[v], s.jobs) && Holds(s.workers[w], s.jobs);
        }
      }
    }
  }

  lemma {:induction false} RunKeepsExclusive(cfg: Config, labels: seq<Label>)
    requires Allowed(false, labels)
    ensures Exclusive(RunFrom(cfg, START, labels))
  {
    if labels != [] {
      var n := |labels| - 1;
      assert labels[n] in labels && forall l | l in labels[..n] :: l in labels;
      RunKeepsExclusive(cfg, labels[..n]);
      RunKeepsClaims(cfg, labels[..n]);
      StepKeepsExclusive(cfg, RunFrom(cfg, START, labels[..n]), labels[n]);
    }
  }

  // ---------------------------------------------------------------------------
  // Without retries
  // ---------------------------------------------------------------------------

  predicate Ended(job: Job) {
    job.status.Done? || job.status.Failed?
  }

  predicate SawEnd(worker: Worker, jobs: seq<Job>) {
    worker.Recording? && (worker.saw.Done? || worker.saw.Failed?) ==> worker.job < |jobs| && Ended(jobs[worker.job])
  }

  predicate LockedIfHeld(job: Job) {
    job.status.Processing? ==> job.lockedAt.Some?
  }

  ghost predicate EndsInv(s: State) {
    && (forall j | 0 <= j < |s.jobs| :: LockedIfHeld(s.jobs[j]))
    && (forall w | 0 <= w < |s.workers| :: SawEnd(s.workers[w], s.jobs))
  }

  lemma StepKeepsEnds(cfg: Config, s: State, l: Label)
    requires EndsInv(s) && ClaimsInv(cfg, s) && cfg.maxAttempts <= 1
    ensures EndsInv(Step(cfg, s, l))
  {
    if Enabled(cfg, s, l) {
      var s' := Apply(cfg, s, l);
      if l.Write? {
        assert ClaimOpen(cfg, s.workers[l.w], s.jobs) && SawEnd(s.workers[l.w], s.jobs);
      }
      forall j | 0 <= j < |s'.jobs| ensures LockedIfHeld(s'.jobs[j]) {
        assert j < |s.jobs| ==> LockedIfHeld(s.jobs[j]);
      }
      forall w | 0 <= w < |s'.workers| ensures SawEnd(s'.workers[w], s'.jobs) {
        assert w < |s.workers| ==> SawEnd(s.workers[w], s.jobs);
      }
    }
  }

  lemma {:induction false} RunKeepsEnds(cfg: Config, labels: seq<Label>)
    requires cfg.maxAttempts <= 1
    ensures EndsInv(RunFrom(cfg, START, labels))
  {
    if labels != [] {
      var n := |labels| - 1;
      RunKeepsEnds(cfg, labels[..n]);
      RunKeepsClaims(cfg, labels[..n]);
      StepKeepsEnds(cfg, RunFrom(cfg, START, labels[..n]), labels[n]);
    }
  }

  // ---------------------------------------------------------------------------
  // With the reaper
  // ---------------------------------------------------------------------------

  // Any property that holds at the start and is kept by every allowed step, such as being reachable.
  ghost predicate Closed(cfg: Config, reaping: bool, seen: State -> bool) {
    seen(START) && forall s, l: Label | seen(s) && (l.Reap? ==> reaping) :: seen(Step(cfg, s, l))
  }

  ghost function Reached(cfg: Config, reaping: bool): State -> bool {
    (s: State) => Reachable(cfg, reaping, s)
  }

  lemma ReachedClosed(cfg: Config, reaping: bool)
    ensures Closed(cfg, reaping, Reached(cfg, reaping))
  {
    assert Allowed(reaping, []) && RunFrom(cfg, START, []) == START;
    forall s, l: Label | Reachable(cfg, reaping, s) && (l.Reap? ==> reaping)
      ensures Reachable(cfg, reaping, Step(cfg, s, l)) {
      var labels :| Allowed(reaping, labels) && RunFrom(cfg, START, labels) == s;
      More(cfg, START, labels, l);
      assert Allowed(reaping, labels + [l]);
    }
  }

  function Pause(cfg: Config): nat {
    Max(0, cfg.timeout) + 1
  }

  predicate OnFirst(workers: seq<Worker>) {
    forall w | 0 <= w < |workers| :: workers[w].Idle? || workers[w].job == 0
  }

  // A system with one job.
  function Sole(now: int, job: Job, run: Run, workers: seq<Worker>): State
    requires OnFirst(workers)
  {
    System(now, [job], [run], workers)
  }

  const WAITING := Run(true, Queued, 0)

  const NEWJOB := Job(Pending, 0, None, 0, 0, {})

  // Worker w claims the job.
  lemma Claims(cfg: Config, reaping: bool, seen: State -> bool, now: int, job: Job, run: Run, workers: seq<Worker>,
      w: nat)
    requires Closed(cfg, reaping, seen) && OnFirst(workers) && seen(Sole(now, job, run, workers))
    requires w < |workers| && workers[w].Idle? && run.present && job.status.Pending? && job.availableAt <= now
    ensures seen(Sole(now, job.(status := Processing, attempts := job.attempts + 1, lockedAt := Some(now)), run,
                      workers[w := Claimed(0, job.attempts + 1)]))
  {
    var held := job.(status := Processing, attempts := job.attempts + 1, lockedAt := Some(now));
    assert [job][0 := held] == [held];
    assert seen(Step(cfg, Sole(now, job, run, workers), Claim(w, 0)));
  }

  lemma Raises(cfg: Config, reaping: bool, seen: State -> bool, now: int, job: Job, run: Run, workers: seq<Worker>,
      w: nat)
    requires Closed(cfg, reaping, seen) && OnFirst(workers) && seen(Sole(now, job, run, workers))
    requires w < |workers| && workers[w].Claimed?
    ensures seen(Sole(now, job, run, workers[w := Raised(0, workers[w].attempt)]))
  {
    assert seen(Step(cfg, Sole(now, job, run, workers), Raise(w)));
  }

  lemma Crashes(cfg: Config, reaping: bool, seen: State -> bool, now: int, job: Job, run: Run, workers: seq<Worker>,
      w: nat)
    requires Closed(cfg, reaping, seen) && OnFirst(workers) && seen(Sole(now, job, run, workers))
    requires w < |workers| && !workers[w].Idle?
    ensures seen(Sole(now, job, run, workers[w := Idle]))
  {
    assert seen(Step(cfg, Sole(now, job, run, workers), Crash(w)));
  }

  lemma Commits(cfg: Config, reaping: bool, seen: State -> bool, now: int, job: Job, workers: seq<Worker>, w: nat)
    requires Closed(cfg, reaping, seen) && OnFirst(workers) && seen(Sole(now, job, WAITING, workers))
    requires w < |workers| && workers[w].Claimed? && forall v | 0 <= v < |workers| :: !workers[v].Executing?
    ensures seen(Sole(now, job, Run(true, Succeeded, 1), workers[w := Returned(0, workers[w].attempt)]))
  {
    var executing := workers[w := Executing(0, workers[w].attempt)];
    assert seen(Step(cfg, Sole(now, job, WAITING, workers), Execute(w)));
    assert Step(cfg, Sole(now, job, WAITING, workers), Execute(w)) == Sole(now, job, WAITING, executing);
    assert seen(Step(cfg, Sole(now, job, WAITING, executing), Commit(w, Succeeded)));
    assert [WAITING][0 := Run(true, Succeeded, 1)] == [Run(true, Succeeded, 1)];
    assert executing[w := Returned(0, workers[w].attempt)] == workers[w := Returned(0, workers[w].attempt)];
  }

  lemma Reads(cfg: Config, reaping: bool, seen: State -> bool, now: int, job: Job, run: Run, workers: seq<Worker>,
      w: nat)
    requires Closed(cfg, reaping, seen) && OnFirst(workers) && seen(Sole(now, job, run, workers))
    requires w < |workers| && (workers[w].Raised? || workers[w].Returned?) && run.present
    ensures seen(Sole(now, job, run,
      workers[w := Recording(0, workers[w].attempt, Target(cfg, workers[w]), job.status, job.lockedAt.Some?)]))
  {
    assert seen(Step(cfg, Sole(now, job, run, workers), Read(w)));
  }

  lemma Writes(cfg: Config, reaping: bool, seen: State -> bool, now: int, job: Job, run: Run, workers: seq<Worker>,
      w: nat)
    requires Closed(cfg, reaping, seen) && OnFirst(workers) && seen(Sole(now, job, run, workers))
    requires w < |workers| && workers[w].Recording? && run.present
    ensures seen(Sole(now, Recorded(workers[w], job), run, workers[w := Idle]))
  {
    assert [job][0 := Recorded(workers[w], job)] == [Recorded(workers[w], job)];
    assert seen(Step(cfg, Sole(now, job, run, workers), Write(w)));
  }

  // A job processing since now is reaped after a pause.
  lemma Requeues(cfg: Config, seen: State -> bool, now: int, job: Job, run: Run, workers: seq<Worker>)
    requires Closed(cfg, true, seen) && OnFirst(workers) && seen(Sole(now, job, run, workers))
    requires run.present && job.status.Processing? && job.lockedAt == Some(now)
    ensures var back := job.(status := Pending, lockedAt := None, reaps := job.reaps + 1);
      seen(Sole(now + Pause(cfg), back, run, workers))
  {
    assert seen(Step(cfg, Sole(now, job, run, workers), Tick(now + Pause(cfg))));
    var back := job.(status := Pending, lockedAt := None, reaps := job.reaps + 1);
    assert [job][0 := back] == [back];
    assert seen(Step(cfg, Sole(now + Pause(cfg), job, run, workers), Reap(0)));
  }

  // Claimed by w, which then raises, and requeued before w records that.
  lemma ClaimedAndRaised(cfg: Config, seen: State -> bool, now: int, job: Job, workers: seq<Worker>, w: nat)
    requires Closed(cfg, true, seen) && OnFirst(workers) && seen(Sole(now, job, WAITING, workers))
    requires w < |workers| && workers[w].Idle? && job.status.Pending? && job.availableAt <= now
    ensures var back := job.(attempts := job.attempts + 1, lockedAt := None, reaps := job.reaps + 1);
      seen(Sole(now + Pause(cfg), back, WAITING, workers[w := Raised(0, job.attempts + 1)]))
  {
    var claimed := workers[w := Claimed(0, job.attempts + 1)];
    var held := job.(status := Processing, attempts := job.attempts + 1, lockedAt := Some(now));
    Claims(cfg, true, seen, now, job, WAITING, workers, w);
    Raises(cfg, true, seen, now, held, WAITING, claimed, w);
    assert claimed[w := Raised(0, job.attempts + 1)] == workers[w := Raised(0, job.attempts + 1)];
    Requeues(cfg, seen, now, held, WAITING, workers[w := Raised(0, job.attempts + 1)]);
  }

  lemma HiredOne(cfg: Config, reaping: bool, seen: State -> bool, workers: seq<Worker>)
    requires Closed(cfg, reaping, seen) && OnFirst(workers) && seen(Sole(0, NEWJOB, WAITING, workers))
    ensures seen(Sole(0, NEWJOB, WAITING, workers + [Idle]))
  {
    assert seen(Step(cfg, Sole(0, NEWJOB, WAITING, workers), Hire));
  }

  // Four idle workers and a new job.
  lemma Hired(cfg: Config, reaping: bool, seen: State -> bool) returns (workers: seq<Worker>)
    requires Closed(cfg, reaping, seen)
    ensures |workers| == 4 && (forall w | 0 <= w < 4 :: workers[w].Idle?) && seen(Sole(0, NEWJOB, WAITING, workers))
  {
    assert seen(Step(cfg, START, Enqueue));
    assert Step(cfg, START, Enqueue) == Sole(0, NEWJOB, WAITING, []);
    workers := [];
    while |workers| < 4
      invariant |workers| <= 4 && (forall w | 0 <= w < |workers| :: workers[w].Idle?) &&
        seen(Sole(0, NEWJOB, WAITING, workers))
    {
      HiredOne(cfg, reaping, seen, workers);
      workers := workers + [Idle];
    }
  }

  // The reaper requeues the job of a live worker, and another claims it.
  lemma TwoHolders(cfg: Config, seen: State -> bool) returns (workers: seq<Worker>)
    requires Closed(cfg, true, seen)
    ensures |workers| == 4 && workers[0] == Raised(0, 1) && workers[1] == Claimed(0, 2) && workers[2].Idle? &&
      workers[3].Idle?
    ensures seen(Sole(Pause(cfg), Job(Processing, 2, Some(Pause(cfg)), 0, 1, {}), WAITING, workers))
  {
    workers := Hired(cfg, true, seen);
    ClaimedAndRaised(cfg, seen, 0, NEWJOB, workers, 0);
    workers := workers[0 := Raised(0, 1)];
    Claims(cfg, true, seen, Pause(cfg), Job(Pending, 1, None, 0, 1, {}), WAITING, workers, 1);
    workers := workers[1 := Claimed(0, 2)];
  }

  // The second holder finishes the job; the first had raised and now puts it back.
  lemma DoneReopened(cfg: Config, seen: State -> bool) returns (s: State)
    requires Closed(cfg, true, seen) && cfg.maxAttempts >= 2
    ensures seen(s) && Reopens(cfg, s, Write(0), 0)
  {
    var now, job, ended := Pause(cfg), Job(Processing, 2, Some(Pause(cfg)), 0, 1, {}), Run(true, Succeeded, 1);
    var workers := TwoHolders(cfg, seen);
    Commits(cfg, true, seen, now, job, workers, 1);
    workers := workers[1 := Returned(0, 2)];
    Reads(cfg, true, seen, now, job, ended, workers, 1);
    workers := workers[1 := Recording(0, 2, Done, Processing, true)];
    Writes(cfg, true, seen, now, job, ended, workers, 1);
    workers := workers[1 := Idle];
    Reads(cfg, true, seen, now, Job(Done, 2, None, 0, 1, {}), ended, workers, 0);
    workers := workers[0 := Recording(0, 1, Pending, Done, false)];
    s := Sole(now, Job(Done, 2, None, 0, 1, {}), ended, workers);
  }

  // A worker that was requeued while it committed reads the row before the next claim and writes `done` after it,
  // leaving the lock of that claim.
  lemma DoneYetLocked(cfg: Config, seen: State -> bool) returns (s: State)
    requires Closed(cfg, true, seen)
    ensures seen(s) && !LockAgrees(s, 0) && s.jobs[0].status.Done?
  {
    var now, ended := Pause(cfg), Run(true, Succeeded, 1);
    var workers := Hired(cfg, true, seen);
    Claims(cfg, true, seen, 0, NEWJOB, WAITING, workers, 0);
    workers := workers[0 := Claimed(0, 1)];
    Commits(cfg, true, seen, 0, Job(Processing, 1, Some(0), 0, 0, {}), workers, 0);
    workers := workers[0 := Returned(0, 1)];
    Requeues(cfg, seen, 0, Job(Processing, 1, Some(0), 0, 0, {}), ended, workers);
    Reads(cfg, true, seen, now, Job(Pending, 1, None, 0, 1, {}), ended, workers, 0);
    workers := workers[0 := Recording(0, 1, Done, Pending, false)];
    Claims(cfg, true, seen, now, Job(Pending, 1, None, 0, 1, {}), ended, workers, 1);
    workers := workers[1 := Claimed(0, 2)];
    Writes(cfg, true, seen, now, Job(Processing, 2, Some(now), 0, 1, {}), ended, workers, 0);
    s := Sole(now, Job(Done, 2, Some(now), 0, 1, {}), ended, workers[0 := Idle]);
  }

  // A failed attempt is claimed again.
  lemma Retried(cfg: Config, seen: State -> bool) returns (s: State)
    requires Closed(cfg, false, seen) && cfg.maxAttempts >= 2
    ensures seen(s) && !ClaimedAtMostOnce(s, 0)
  {
    var held, back := Job(Processing, 1, Some(0), 0, 0, {}), Job(Pending, 1, None, 0, 0, {1});
    var workers := Hired(cfg, false, seen);
    Claims(cfg, false, seen, 0, NEWJOB, WAITING, workers, 0);
    workers := workers[0 := Claimed(0, 1)];
    Raises(cfg, false, seen, 0, held, WAITING, workers, 0);
    workers := workers[0 := Raised(0, 1)];
    Reads(cfg, false, seen, 0, held, WAITING, workers, 0);
    workers := workers[0 := Recording(0, 1, Pending, Processing, true)];
    Writes(cfg, false, seen, 0, held, WAITING, workers, 0);
    assert Recorded(workers[0], held) == back;
    workers := workers[0 := Idle];
    Claims(cfg, false, seen, 0, back, WAITING, workers, 0);
    s := Sole(0, Job(Processing, 2, Some(0), 0, 0, {1}), WAITING, workers[0 := Claimed(0, 2)]);
  }

  // Worker 0 has raised on its first attempt and not yet said so; n attempts were made in all.
  lemma {:induction false} Pump(cfg: Config, seen: State -> bool, n: nat)
      returns (now: nat, reaps: nat, workers: seq<Worker>)
    requires Closed(cfg, true, seen) && n >= 1
    ensures |workers| == 4 && workers[0] == Raised(0, 1) && forall w | 1 <= w < 4 :: workers[w].Idle?
    ensures seen(Sole(now, Job(Pending, n, None, 0, reaps, {}), WAITING, workers))
  {
    if n == 1 {
      workers := Hired(cfg, true, seen);
      ClaimedAndRaised(cfg, seen, 0, NEWJOB, workers, 0);
      now, reaps, workers := Pause(cfg), 1, workers[0 := Raised(0, 1)];
    } else {
      now, reaps, workers := Pump(cfg, seen, n - 1);
      ClaimedAndRaised(cfg, seen, now, Job(Pending, n - 1, None, 0, reaps, {}), workers, 1);
      now, reaps, workers := now + Pause(cfg), reaps + 1, workers[1 := Raised(0, n)];
      Crashes(cfg, true, seen, now, Job(Pending, n, None, 0, reaps, {}), WAITING, workers, 1);
      workers := workers[1 := Idle];
    }
  }

  // Two more workers use up the attempts.
  lemma TwoMoreRaise(cfg: Config, seen: State -> bool, n: nat) returns (now: nat, reaps: nat, workers: seq<Worker>)
    requires Closed(cfg, true, seen) && n >= 1
    ensures |workers| == 4 && workers[0] == Raised(0, 1) && workers[1] == Raised(0, n + 1) &&
      workers[2] == Raised(0, n + 2)
    ensures workers[3].Idle? && seen(Sole(now, Job(Pending, n + 2, None, 0, reaps, {}), WAITING, workers))
  {
    now, reaps, workers := Pump(cfg, seen, n);
    ClaimedAndRaised(cfg, seen, now, Job(Pending, n, None, 0, reaps, {}), workers, 1);
    now, reaps, workers := now + Pause(cfg), reaps + 1, workers[1 := Raised(0, n + 1)];
    ClaimedAndRaised(cfg, seen, now, Job(Pending, n + 1, None, 0, reaps, {}), workers, 2);
    now, reaps, workers := now + Pause(cfg), reaps + 1, workers[2 := Raised(0, n + 2)];
  }

  // The last of them reads the row before a fourth claim and writes after it: failed, yet locked.
  lemma FailedYetLocked(cfg: Config, seen: State -> bool, n: nat) returns (now: nat, reaps: nat, workers: seq<Worker>)
    requires Closed(cfg, true, seen) && n >= 1 && n + 1 >= cfg.maxAttempts >= 2
    ensures |workers| == 4 && workers[0] == Raised(0, 1) && workers[1] == Raised(0, n + 1) && workers[2].Idle?
    ensures workers[3] == Claimed(0, n + 3) &&
      seen(Sole(now, Job(Failed, n + 3, Some(now), 0, reaps, {}), WAITING, workers))
  {
    now, reaps, workers := TwoMoreRaise(cfg, seen, n);
    var job := Job(Pending, n + 2, None, 0, reaps, {});
    Reads(cfg, true, seen, now, job, WAITING, workers, 2);
    workers := workers[2 := Recording(0, n + 2, Failed, Pending, false)];
    Claims(cfg, true, seen, now, job, WAITING, workers, 3);
    workers := workers[3 := Claimed(0, n + 3)];
    Writes(cfg, true, seen, now, Job(Processing, n + 3, Some(now), 0, reaps, {}), WAITING, workers, 2);
    workers := workers[2 := Idle];
  }

  // Worker 1 reads that row; worker 0 reads it too and puts the job back.
  lemma LockToBeCleared(cfg: Config, seen: State -> bool, n: nat) returns (now: nat, reaps: nat, workers: seq<Worker>)
    requires Closed(cfg, true, seen) && n >= 1 && n + 1 >= cfg.maxAttempts >= 2
    ensures |workers| == 4 && workers[0].Idle? && workers[1] == Recording(0, n + 1, Failed, Failed, true) &&
      workers[2].Idle?
    ensures workers[3] == Claimed(0, n + 3) &&
      seen(Sole(now, Job(Pending, n + 3, None, 0, reaps, {1}), WAITING, workers))
  {
    now, reaps, workers := FailedYetLocked(cfg, seen, n);
    var job := Job(Failed, n + 3, Some(now), 0, reaps, {});
    Reads(cfg, true, seen, now, job, WAITING, workers, 1);
    workers := workers[1 := Recording(0, n + 1, Failed, Failed, true)];
    Reads(cfg, true, seen, now, job, WAITING, workers, 0);
    workers := workers[0 := Recording(0, 1, Pending, Failed, true)];
    Writes(cfg, true, seen, now, job, WAITING, workers, 0);
    assert Recorded(workers[0], job) == Job(Pending, n + 3, None, 0, reaps, {1});
    workers := workers[0 := Idle];
  }

  // The next claim loses its lock to the write still outstanding, and once its worker is gone so is the job.
  lemma JobStranded(cfg: Config, seen: State -> bool) returns (s: State)
    requires Closed(cfg, true, seen) && cfg.maxAttempts >= 2
    ensures seen(s) && Stranded(s, 0)
  {
    var n := cfg.maxAttempts - 1;
    var now, reaps, workers := LockToBeCleared(cfg, seen, n);
    var lost := Job(Processing, n + 4, None, 0, reaps, {1});
    Claims(cfg, true, seen, now, Job(Pending, n + 3, None, 0, reaps, {1}), WAITING, workers, 0);
    workers := workers[0 := Claimed(0, n + 4)];
    Writes(cfg, true, seen, now, lost.(lockedAt := Some(now)), WAITING, workers, 1);
    workers := workers[1 := Idle];
    Crashes(cfg, true, seen, now, lost, WAITING, workers, 0);
    workers := workers[0 := Idle];
    Crashes(cfg, true, seen, now, lost, WAITING, workers, 3);
    s := Sole(now, lost, WAITING, workers[3 := Idle]);
  }

  // ---------------------------------------------------------------------------
  // The exact conditions
  // ---------------------------------------------------------------------------

  // No two workers ever hold one job if and only if the reaper does not run.
  lemma HeldOnceExactly(cfg: Config, reaping: bool)
    ensures (forall s, v: nat, w: nat | Reachable(cfg, reaping, s) :: !HeldTwice(s, v, w)) <==> !reaping
  {
    if reaping {
      ReachedClosed(cfg, true);
      var workers := TwoHolders(cfg, Reached(cfg, true));
      assert HeldTwice(Sole(Pause(cfg), Job(Processing, 2, Some(Pause(cfg)), 0, 1, {}), WAITING, workers), 0, 1);
    } else {
      forall s, v: nat, w: nat | Reachable(cfg, false, s) ensures !HeldTwice(s, v, w) {
        var labels :| Allowed(false, labels) && RunFrom(cfg, START, labels) == s;
        RunKeepsExclusive(cfg, labels);
        assert v < w < |s.workers| ==> JobsApart(s.workers[v], s.workers[w]);
      }
    }
  }

  lemma OnceWithout(cfg: Config, s: State, j: nat)
    requires Reachable(cfg, false, s) && cfg.maxAttempts <= 1
    ensures ClaimedAtMostOnce(s, j)
  {
    var labels :| Allowed(false, labels) && RunFrom(cfg, START, labels) == s;
    RunKeepsExclusive(cfg, labels);
    ClaimsBounded(cfg, labels, j);
    assert j < |s.jobs| ==> LockTrue(s.jobs[j]);
  }

  // Every job is claimed at most once in every run if and only if the reaper does not run and nothing is retried.
  lemma ClaimedOnceExactly(cfg: Config, reaping: bool)
    ensures (forall s, j: nat | Reachable(cfg, reaping, s) :: ClaimedAtMostOnce(s, j)) <==>
      !reaping && cfg.maxAttempts <= 1
  {
    if reaping {
      ReachedClosed(cfg, true);
      var workers := TwoHolders(cfg, Reached(cfg, true));
      assert !ClaimedAtMostOnce(Sole(Pause(cfg), Job(Processing, 2, Some(Pause(cfg)), 0, 1, {}), WAITING, workers), 0);
    } else if cfg.maxAttempts >= 2 {
      ReachedClosed(cfg, false);
      var s := Retried(cfg, Reached(cfg, false));
      assert Reachable(cfg, false, s);
    } else {
      forall s, j: nat | Reachable(cfg, false, s) ensures ClaimedAtMostOnce(s, j) {
        OnceWithout(cfg, s, j);
      }
    }
  }

  lemma RetryReopens(cfg: Config, s: State, l: Label, j: nat)
    requires Reopens(cfg, s, l, j)
    ensures l.Write? && l.w < |s.workers| && s.workers[l.w].Recording?
    ensures s.workers[l.w].target.Pending? && s.workers[l.w].job == j
  {
  }

  lemma StaysDone(cfg: Config, reaping: bool, s: State, l: Label, j: nat)
    requires Reachable(cfg, reaping, s) && (!reaping || cfg.maxAttempts <= 1)
    ensures !Reopens(cfg, s, l, j)
  {
    var labels :| Allowed(reaping, labels) && RunFrom(cfg, START, labels) == s;
    if Reopens(cfg, s, l, j) {
      RetryReopens(cfg, s, l, j);
      if reaping {
        assert !ClaimOpen(cfg, s.workers[l.w], s.jobs);
        RunKeepsClaims(cfg, labels);
      } else {
        assert !Holds(s.workers[l.w], s.jobs);
        RunKeepsExclusive(cfg, labels);
      }
    }
  }

  // A job goes back from `done` to `pending` in some run if and only if the reaper runs and failures are retried.
  lemma ReopensExactly(cfg: Config, reaping: bool)
    ensures (exists s, l, j: nat :: Reachable(cfg, reaping, s) && Reopens(cfg, s, l, j)) <==>
      reaping && cfg.maxAttempts >= 2
  {
    if reaping && cfg.maxAttempts >= 2 {
      ReachedClosed(cfg, true);
      var s := DoneReopened(cfg, Reached(cfg, true));
      assert Reachable(cfg, true, s);
    } else {
      forall s, l, j: nat | Reachable(cfg, reaping, s) ensures !Reopens(cfg, s, l, j) {
        StaysDone(cfg, reaping, s, l, j);
      }
    }
  }

  // No job is ever stranded if and only if the reaper does not run or nothing is retried.
  lemma StrandedExactly(cfg: Config, reaping: bool)
    ensures (forall s, j: nat | Reachable(cfg, reaping, s) :: !Stranded(s, j)) <==> !reaping || cfg.maxAttempts <= 1
  {
    if reaping && cfg.maxAttempts >= 2 {
      ReachedClosed(cfg, true);
      var s := JobStranded(cfg, Reached(cfg, true));
      assert Reachable(cfg, true, s);
    } else {
      forall s, j: nat | Reachable(cfg, reaping, s) ensures !Stranded(s, j) {
        HeldIsLocked(cfg, reaping, s, j);
      }
    }
  }

  // A job is processing exactly when locked, in every reachable state, if and only if the reaper does not run.
  lemma LockAgreesExactly(cfg: Config, reaping: bool)
    ensures (forall s, j: nat | Reachable(cfg, reaping, s) :: LockAgrees(s, j)) <==> !reaping
  {
    if reaping {
      ReachedClosed(cfg, true);
      var s := DoneYetLocked(cfg, Reached(cfg, true));
      assert Reachable(cfg, true, s);
    } else {
      forall s, j: nat | Reachable(cfg, false, s) ensures LockAgrees(s, j) {
        var labels :| Allowed(false, labels) && RunFrom(cfg, START, labels) == s;
        RunKeepsExclusive(cfg, labels);
        assert j < |s.jobs| ==> LockTrue(s.jobs[j]);
      }
    }
  }

  lemma HeldIsLocked(cfg: Config, reaping: bool, s: State, j: nat)
    requires Reachable(cfg, reaping, s) && (!reaping || cfg.maxAttempts <= 1)
    ensures ProcessingLocked(s, j)
  {
    var labels :| Allowed(reaping, labels) && RunFrom(cfg, START, labels) == s;
    if j < |s.jobs| {
      if reaping {
        RunKeepsEnds(cfg, labels);
        assert LockedIfHeld(s.jobs[j]);
      } else {
        RunKeepsExclusive(cfg, labels);
        assert LockTrue(s.jobs[j]);
      }
    }
  }

  // Of the two directions, that a processing job is locked takes retries as well to break.
  lemma ProcessingLockedExactly(cfg: Config, reaping: bool)
    ensures (forall s, j: nat | Reachable(cfg, reaping, s) :: ProcessingLocked(s, j)) <==>
      !reaping || cfg.maxAttempts <= 1
  {
    if reaping && cfg.maxAttempts >= 2 {
      ReachedClosed(cfg, true);
      var s := JobStranded(cfg, Reached(cfg, true));
      assert Reachable(cfg, true, s) && !ProcessingLocked(s, 0);
    } else {
      forall s, j: nat | Reachable(cfg, reaping, s) ensures ProcessingLocked(s, j) {
        HeldIsLocked(cfg, reaping, s, j);
      }
    }
  }

  lemma StrandedStep(cfg: Config, s: State, l: Label, j: nat)
    requires Stranded(s, j)
    ensures var t := Step(cfg, s, l);
      j < |t.jobs| && t.jobs[j] == s.jobs[j] && (t.runs[j].present ==> Stranded(t, j) && t.runs[j] == s.runs[j])
  {
  }

  // And a stranded job is never claimed, reaped or run again: its row can only be deleted.
  lemma {:induction false} StrandedForever(cfg: Config, s: State, more: seq<Label>, j: nat)
    requires Stranded(s, j)
    ensures var t := RunFrom(cfg, s, more);
      j < |t.jobs| && (t.runs[j].present ==> Stranded(t, j) && t.runs[j] == s.runs[j] && t.jobs[j] == s.jobs[j])
  {
    if more != [] {
      var t, l := RunFrom(cfg, s, more[..|more| - 1]), more[|more| - 1];
      StrandedForever(cfg, s, more[..|more| - 1], j);
      if t.runs[j].present {
        StrandedStep(cfg, t, l, j);
      }
    }
  }
}
