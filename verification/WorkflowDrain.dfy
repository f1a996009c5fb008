/**
 `drain_workflow_jobs` of apps/api/captureos/workflows/queue.py as the loop it is, run by one worker while other
 workers, the reaper, the clock and the rest of the service do what they like in between. Every statement it makes
 is a step of the system in WorkflowQueue, so what holds of all runs holds of it.
 */
module WorkflowDrain {
  import opened Wrappers
  import opened WorkflowQueue

  type Outcome = r: RunStatus | !r.Queued? witness Succeeded

  // How one execution of a run ends: with a committed outcome, or with an exception.
  datatype Attempt = Settles(outcome: Outcome) | Throws

  // Which transactions of the loop fail: the claim, recording `done`, recording a failure. The second is caught and
  // recorded as a failure; the others end the loop.
  datatype Faults = Faults(claim: bool, done: bool, failure: bool)

  datatype End = NothingDue | Processed | Escaped

  predicate Of(l: Label, w: nat) {
    WorkerLabel(l) && l.w == w
  }

  // A later state: time does not run backwards, and jobs stay where they are.
  predicate Later(a: State, b: State) {
    && a.now <= b.now && |a.jobs| <= |b.jobs| && |a.workers| <= |b.workers|
    && forall j | 0 <= j < |a.jobs| ::
      a.jobs[j].availableAt == b.jobs[j].availableAt && (b.runs[j].present ==> a.runs[j].present)
  }

  predicate Finished(s: State, j: nat) {
    j < |s.jobs| && (s.jobs[j].status.Done? || s.jobs[j].status.Failed?)
  }

  predicate NobodyExecutes(s: State) {
    forall v | 0 <= v < |s.workers| :: !s.workers[v].Executing?
  }

  // Due and finished jobs other than k are still due or finished.
  predicate OthersKept(a: State, b: State, k: nat) {
    && |a.jobs| <= |b.jobs|
    && forall j | 0 <= j < |a.jobs| && j != k ::
      (Claimable(a, j) ==> Claimable(b, j)) && (Finished(a, j) ==> Finished(b, j))
  }

  // What was due or finished, k apart, still is one or the other.
  predicate KeptBut(a: State, b: State, k: Option<nat>) {
    && |a.jobs| <= |b.jobs|
    && forall j: nat | j < |a.jobs| && k != Some(j) && (Claimable(a, j) || Finished(a, j)) ::
      Claimable(b, j) || Finished(b, j)
  }

  lemma OneExecutor(cfg: Config, trace: seq<Label>, v: nat)
    requires v < |RunFrom(cfg, START, trace).workers| && RunFrom(cfg, START, trace).workers[v].Executing?
    ensures var workers := RunFrom(cfg, START, trace).workers;
      forall u | 0 <= u < |workers| && u != v :: !(workers[u].Executing? && workers[u].job == workers[v].job)
  {
    RunKeepsRuns(cfg, trace);
    var workers := RunFrom(cfg, START, trace).workers;
    forall u | 0 <= u < |workers| && u != v ensures !(workers[u].Executing? && workers[u].job == workers[v].job) {
      assert ExecuteApart(workers[Min(u, v)], workers[Max(u, v)]);
    }
  }

  // What is done elsewhere at the points where this worker pauses.
  type Elsewhere = nat -> seq<Label>

  ghost predicate Calm(others: Elsewhere) {
    forall k :: others(k) == []
  }

  class Service {
    const cfg: Config
    var s: State
    ghost var trace: seq<Label>

    ghost predicate Valid()
      reads this
    {
      s == RunFrom(cfg, START, trace)
    }

    constructor (cfg: Config)
      ensures Valid() && s == START && this.cfg == cfg
    {
      this.cfg, s, trace := cfg, START, [];
    }

    method Take(l: Label)
      requires Valid() && Enabled(cfg, s, l)
      modifies this
      ensures Valid() && s == Apply(cfg, old(s), l) && trace == old(trace) + [l] && Later(old(s), s)
    {
      s := Apply(cfg, s, l);
      trace := trace + [l];
      assert trace[..|trace| - 1] == old(trace);
    }

    // Steps of others; those that are not enabled, or are this worker's, do not happen.
    method Interfere(w: nat, labels: seq<Label>)
      requires Valid() && w < |s.workers|
      modifies this
      ensures Valid() && old(trace) <= trace && Later(old(s), s) && s.workers[w] == old(s).workers[w]
      ensures labels == [] ==> s == old(s) && trace == old(trace)
    {
      for i := 0 to |labels|
        invariant Valid() && old(trace) <= trace && Later(old(s), s) && s.workers[w] == old(s).workers[w]
        invariant i == 0 ==> s == old(s) && trace == old(trace)
      {
        if Enabled(cfg, s, labels[i]) && !Of(labels[i], w) {
          Take(labels[i]);
        }
      }
    }

    // The due pending job that became available first.
    method ClaimOne(w: nat) returns (job: Option<nat>)
      requires Valid() && w < |s.workers| && s.workers[w].Idle?
      modifies this
      ensures Valid() && Later(old(s), s)
      ensures job.None? ==> s == old(s) && trace == old(trace) && forall j: nat :: !Claimable(s, j)
      ensures job.Some? ==>
        && Enabled(cfg, old(s), Claim(w, job.value))
        && s == Apply(cfg, old(s), Claim(w, job.value)) && trace == old(trace) + [Claim(w, job.value)]
        && forall j: nat | Claimable(old(s), j) :: old(s).jobs[job.value].availableAt <= old(s).jobs[j].availableAt
    {
      job := None;
      for j := 0 to |s.jobs|
        invariant s == old(s) && trace == old(trace)
        invariant job.None? ==> forall k: nat | k < j :: !Claimable(s, k)
        invariant job.Some? ==>
          && Claimable(s, job.value)
          && forall k: nat | k < j && Claimable(s, k) :: s.jobs[job.value].availableAt <= s.jobs[k].availableAt
      {
        if Claimable(s, j) && (job.None? || s.jobs[j].availableAt < s.jobs[job.value].availableAt) {
          job := Some(j);
        }
      }
      if job.Some? {
        Take(Claim(w, job.value));
      }
    }

    // SELECT ... FOR UPDATE waits until the worker that executes the run has ended its transaction.
    method AwaitRun(w: nat, holder: Attempt)
      requires Valid() && w < |s.workers| && s.workers[w].Claimed?
      modifies this
      ensures Valid() && old(trace) <= trace && Later(old(s), s) && s.workers[w] == old(s).workers[w]
      ensures !RunLocked(s, s.workers[w].job)
      ensures !RunLocked(old(s), old(s).workers[w].job) ==> s == old(s)
    {
      var j := s.workers[w].job;
      if RunLocked(s, j) {
        var v :| 0 <= v < |s.workers| && s.workers[v].Executing? && s.workers[v].job == j;
        OneExecutor(cfg, trace, v);
        match holder
        case Settles(outcome) => Take(Commit(v, outcome));
        case Throws => Take(Raise(v));
      }
    }

    // The run's row is locked and looked at: gone or terminal, it is left alone.
    method BeginRun(w: nat, holder: Attempt, others: Elsewhere)
      requires Valid() && w < |s.workers| && s.workers[w].Claimed?
      modifies this
      ensures Valid() && old(trace) <= trace && Later(old(s), s)
      ensures s.workers[w] == Returned(old(s).workers[w].job, old(s).workers[w].attempt)
           || s.workers[w] == Executing(old(s).workers[w].job, old(s).workers[w].attempt)
      ensures Calm(others) && NobodyExecutes(old(s)) ==>
        s.now == old(s).now && s.jobs == old(s).jobs && s.runs == old(s).runs &&
          s.workers == old(s).workers[w := s.workers[w]]
    {
      Interfere(w, others(0));
      AwaitRun(w, holder);
      Take(Execute(w));
      Interfere(w, others(1));
    }

    // Its transaction commits, or rolls back.
    method EndRun(w: nat, attempt: Attempt)
      requires Valid() && w < |s.workers| && (s.workers[w].Executing? || s.workers[w].Returned?)
      modifies this
      ensures Valid() && old(trace) <= trace && Later(old(s), s)
      ensures s.workers[w] == Returned(old(s).workers[w].job, old(s).workers[w].attempt)
           || (attempt.Throws? && s.workers[w] == Raised(old(s).workers[w].job, old(s).workers[w].attempt))
      ensures s.now == old(s).now && s.jobs == old(s).jobs && s.workers == old(s).workers[w := s.workers[w]]
      ensures forall i | 0 <= i < |s.runs| :: s.runs[i].present == old(s).runs[i].present
    {
      if s.workers[w].Executing? {
        match attempt
        case Settles(outcome) => Take(Commit(w, outcome));
        case Throws => Take(Raise(w));
      }
    }

    method ReadRow(w: nat, others: Elsewhere)
      requires Valid() && w < |s.workers| && (s.workers[w].Returned? || s.workers[w].Raised?)
      modifies this
      ensures Valid() && old(trace) <= trace && Later(old(s), s)
      ensures s.workers[w].Idle? ||
        (s.workers[w].Recording? && s.workers[w].attempt == old(s).workers[w].attempt &&
         (s.workers[w].target.Done? <==> old(s).workers[w].Returned?))
      ensures Calm(others) ==> s == Apply(cfg, old(s), Read(w))
    {
      Interfere(w, others(2));
      Take(Read(w));
      Interfere(w, others(3));
    }

    // If recording `done` finds the row gone or fails to commit, the exception is recorded instead.
    method RecordDone(w: nat, fails: bool, others: Elsewhere)
      requires Valid() && w < |s.workers| && s.workers[w].Returned?
      modifies this
      ensures Valid() && old(trace) <= trace && Later(old(s), s) && (s.workers[w].Idle? || s.workers[w].Raised?)
      ensures s.workers[w].Raised? ==> s.workers[w].attempt == old(s).workers[w].attempt
      ensures Calm(others) ==>
        var j := old(s).workers[w].job;
        && s.now == old(s).now && s.runs == old(s).runs && s.workers == old(s).workers[w := s.workers[w]]
        && (s.workers[w].Raised? ==> fails && s.workers[w].job == j && s.jobs == old(s).jobs)
        && (s.workers[w].Idle? ==> OthersKept(old(s), s, j))
        && (s.workers[w].Idle? && s.runs[j].present && old(s).jobs[j].status.Processing? ==>
              !fails && s.jobs[j].status.Done?)
    {
      ReadRow(w, others);
      if s.workers[w].Recording? {
        if fails {
          Take(Raise(w));
        } else {
          Take(Write(w));
        }
      }
    }

    // _finish_job or _retry_job in the `except` branch. An exception there leaves the job as it was claimed.
    method RecordFailure(w: nat, fails: bool, others: Elsewhere) returns (escaped: bool)
      requires Valid() && w < |s.workers| && s.workers[w].Raised?
      modifies this
      ensures Valid() && old(trace) <= trace && Later(old(s), s) && s.workers[w].Idle?
      ensures escaped ==> fails
      ensures Calm(others) ==>
        var j := old(s).workers[w].job;
        && s.now == old(s).now && s.runs == old(s).runs && s.workers == old(s).workers[w := Idle]
        && OthersKept(old(s), s, j)
        && (escaped ==> s.jobs == old(s).jobs)
        && (!escaped && s.runs[j].present && old(s).jobs[j].status.Processing? ==>
              s.jobs[j].status == Target(cfg, old(s).workers[w]))
    {
      ReadRow(w, others);
      escaped := s.workers[w].Recording? && fails;
      if escaped {
        Take(Crash(w));
      } else if s.workers[w].Recording? {
        Take(Write(w));
      }
    }

    method RecordFate(w: nat, faults: Faults, others: Elsewhere) returns (escaped: bool)
      requires Valid() && w < |s.workers| && (s.workers[w].Returned? || s.workers[w].Raised?)
      modifies this
      ensures Valid() && old(trace) <= trace && Later(old(s), s) && s.workers[w].Idle?
      ensures escaped ==> faults.failure
      ensures Calm(others) ==>
        var j := old(s).workers[w].job;
        && s.now == old(s).now && s.runs == old(s).runs && s.workers == old(s).workers[w := Idle]
        && OthersKept(old(s), s, j)
        && (escaped ==> s.jobs == old(s).jobs)
        && (!escaped && s.runs[j].present && old(s).jobs[j].status.Processing? ==>
              s.jobs[j].status == (if old(s).workers[w].Returned? && !faults.done then Done
                                   else if old(s).workers[w].attempt >= cfg.maxAttempts then Failed else Pending))
    {
      escaped := false;
      if s.workers[w].Returned? {
        RecordDone(w, faults.done, others);
      }
      if s.workers[w].Raised? {
        escaped := RecordFailure(w, faults.failure, others);
      }
    }

    // The body of the loop after a claim. Undisturbed, the job is then finished or due again, and done if the
    // execution settled and `done` could be recorded; other jobs that were due or finished still are.
    method Process(w: nat, attempt: Attempt, holder: Attempt, faults: Faults, others: Elsewhere)
        returns (escaped: bool)
      requires Valid() && w < |s.workers| && s.workers[w].Claimed?
      modifies this
      ensures Valid() && old(trace) <= trace && Later(old(s), s) && s.workers[w].Idle?
      ensures escaped ==> faults.failure
      ensures Calm(others) && NobodyExecutes(old(s)) ==>
        var j := old(s).workers[w].job;
        && s.workers == old(s).workers[w := Idle] && OthersKept(old(s), s, j)
        && (escaped ==> s.jobs == old(s).jobs)
        && (!escaped && old(s).runs[j].present && old(s).jobs[j].status.Processing? &&
            old(s).jobs[j].availableAt <= old(s).now ==>
              (Finished(s, j) || Claimable(s, j)) && (attempt.Settles? && !faults.done ==> s.jobs[j].status.Done?))
    {
      BeginRun(w, holder, others);
      EndRun(w, attempt);
      escaped := RecordFate(w, faults, others);
    }

    method ClaimAndProcess(w: nat, attempt: (nat, nat) -> Attempt, holder: Attempt, faults: Faults, others: Elsewhere)
        returns (end: End)
      requires Valid() && w < |s.workers| && s.workers[w].Idle?
      modifies this
      ensures Valid() && old(trace) <= trace && Later(old(s), s) && s.workers[w].Idle?
      ensures end.NothingDue? <==> forall j: nat :: !Claimable(old(s), j)
      ensures end.NothingDue? ==> s == old(s)
      ensures end.Escaped? ==> faults.failure
      ensures Calm(others) && NobodyExecutes(old(s)) ==>
        && s.workers == old(s).workers
        && (!end.Escaped? ==> KeptBut(old(s), s, None))
        && exists k :: KeptBut(old(s), s, k)
    {
      var job := ClaimOne(w);
      if job.None? {
        assert KeptBut(old(s), s, None);
        return NothingDue;
      }
      assert OthersKept(old(s), s, job.value);
      assert NobodyExecutes(old(s)) ==> NobodyExecutes(s);
      var escaped := Process(w, attempt(job.value, s.workers[w].attempt), holder, faults, others);
      assert Calm(others) && NobodyExecutes(old(s)) ==> KeptBut(old(s), s, job);
      end := if escaped then Escaped else Processed;
    }

    // One turn of the drain loop. Nothing is due when it stops.
    method Turn(w: nat, attempt: (nat, nat) -> Attempt, holder: Attempt, faults: Faults, others: Elsewhere)
        returns (end: End)
      requires Valid() && w < |s.workers| && s.workers[w].Idle?
      modifies this
      ensures Valid() && old(trace) <= trace && Later(old(s), s) && s.workers[w].Idle?
      ensures end.NothingDue? ==> forall j: nat :: !Claimable(s, j)
      ensures end.Escaped? ==> faults.claim || faults.failure
      ensures Calm(others) && end.NothingDue? ==> s == old(s)
      ensures Calm(others) && !faults.claim ==> (end.NothingDue? <==> forall j: nat :: !Claimable(old(s), j))
      ensures Calm(others) && NobodyExecutes(old(s)) ==>
        && s.workers == old(s).workers
        && (!end.Escaped? ==> KeptBut(old(s), s, None))
        && exists k :: KeptBut(old(s), s, k)
    {
      Interfere(w, others(4));
      if faults.claim {
        assert Calm(others) ==> KeptBut(old(s), s, None);
        return Escaped;
      }
      end := ClaimAndProcess(w, attempt, holder, faults, others);
    }

    // Claim and run pending jobs until none is due, or maxJobs have been processed, or an exception escapes. When it
    // stops early by itself, no job that was due at the start is pending any more; if nothing else happened meanwhile,
    // each is done or failed. If an exception ended it, that leaves at most one of them neither finished nor due.
    method Drain(w: nat, maxJobs: int, attempt: (nat, nat) -> Attempt, holder: nat -> Attempt, faults: nat -> Faults,
        others: nat -> Elsewhere)
        returns (processed: nat, escaped: bool)
      requires Valid() && w < |s.workers| && s.workers[w].Idle?
      modifies this
      ensures Valid() && old(trace) <= trace && Later(old(s), s) && s.workers[w].Idle?
      ensures processed <= Max(0, maxJobs)
      ensures escaped ==> processed < maxJobs && (faults(processed).claim || faults(processed).failure)
      ensures !escaped && processed < maxJobs ==> forall j: nat :: !Claimable(s, j)
      ensures !escaped && processed < maxJobs ==> forall j: nat | Claimable(old(s), j) ::
        !s.runs[j].present || !s.jobs[j].status.Pending?
      ensures NobodyExecutes(old(s)) && (forall n :: Calm(others(n))) ==>
        && (!escaped && processed < maxJobs ==> forall j: nat | Claimable(old(s), j) :: Finished(s, j))
        && (escaped ==> exists k :: KeptBut(old(s), s, k))
    {
      processed, escaped := 0, false;
      ghost var calm := NobodyExecutes(s) && forall n :: Calm(others(n));
      while processed < maxJobs
        invariant Valid() && old(trace) <= trace && Later(old(s), s) && s.workers[w].Idle?
        invariant processed <= Max(0, maxJobs) && !escaped
        invariant calm ==> s.workers == old(s).workers && KeptBut(old(s), s, None)
        decreases maxJobs - processed
      {
        ghost var before := s;
        var end := Turn(w, attempt, holder(processed), faults(processed), others(processed));
        if !end.Processed? {
          escaped := end.Escaped?;
          assert calm && escaped ==> exists k :: KeptBut(old(s), s, k) by {
            if calm && escaped {
              var k :| KeptBut(before, s, k);
              assert KeptBut(old(s), s, k);
            }
          }
          break;
        }
        processed := processed + 1;
      }
      forall j: nat | Claimable(old(s), j) && !Claimable(s, j)
        ensures !s.runs[j].present || !s.jobs[j].status.Pending?
      {
        assert s.jobs[j].availableAt == old(s).jobs[j].availableAt;
      }
    }
  }
}
