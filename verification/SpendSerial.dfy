/**
 Concurrent authorizations explained one at a time: each recorded verdict is the one a request served alone
 would have been given, on the table as it stood when the budget's lock was held.
 */
module SpendSerial {
  import opened Wrappers
  import opened Calendar
  import opened SpendRules
  import opened SpendLedger
  import opened SpendCap

  predicate JudgedBy(cfg: Config, r: Row, org: nat, b: Budget) {
    r.org == org && cfg.JudgeFor(org, r.charge.scope) == Accumulating(b)
  }

  // The verdict on a charge that finds these rows and nobody else at work.
  function SerialVerdict(cfg: Config, rows: seq<Row>, r: Row): Verdict {
    var j := cfg.JudgeFor(r.org, r.charge.scope);
    Settle(j, r.charge.amount,
           if j.Accumulating? then Spent(rows, r.org, j.budget, WindowStart(j.budget.interval, r.decidedAt)) else 0)
  }

  // The row was judged on the first k rows, and no later one went through its budget.
  ghost predicate ExplainedAt(cfg: Config, rows: seq<Row>, r: Row, k: nat) {
    && k <= |rows|
    && r.verdict == SerialVerdict(cfg, rows[..k], r)
    && forall m, b | k <= m < |rows| && JudgedBy(cfg, r, r.org, b) :: !JudgedBy(cfg, rows[m], r.org, b)
  }

  ghost predicate Explained(cfg: Config, rows: seq<Row>, r: Row) {
    exists k: nat :: ExplainedAt(cfg, rows, r, k)
  }

  ghost predicate SerialInv(cfg: Config, s: State) {
    && (forall i | 0 <= i < |s.rows| :: Explained(cfg, s.rows[..i], s.rows[i]))
    && (forall p | 0 <= p < |s.procs| && PendingRow(s.procs[p]).Some? ::
      Explained(cfg, s.rows, PendingRow(s.procs[p]).value))
  }

  lemma NewlyExplained(cfg: Config, s: State, l: Label)
    requires Sound(cfg, s) && SerialInv(cfg, s) && !l.Arrive? && Enabled(cfg, s, l)
    requires PendingRow(Proc(s.procs[l.p].charge, NextPhase(cfg, s, l))).Some?
    ensures Explained(cfg, s.rows, PendingRow(Proc(s.procs[l.p].charge, NextPhase(cfg, s, l))).value)
  {
    assert ProcSound(cfg, s.rows, s.procs[l.p]);
    if l.Insert? {
      assert PendingRow(s.procs[l.p]).Some?;
    } else {
      var row := NextPhase(cfg, s, l).row;
      assert s.rows[..|s.rows|] == s.rows;
      assert ExplainedAt(cfg, s.rows, row, |s.rows|);
    }
  }

  // A commit through another budget leaves the explanation of a pending row as it was.
  lemma CommitKeepsExplained(cfg: Config, s: State, p: nat, q: nat)
    requires Sound(cfg, s) && SerialInv(cfg, s) && p < |s.procs| && q < |s.procs| && p != q
    requires s.procs[p].phase.Inserted? && PendingRow(s.procs[q]).Some?
    ensures Explained(cfg, s.rows + [s.procs[p].phase.row], PendingRow(s.procs[q]).value)
  {
    var done, row := s.procs[p].phase.row, PendingRow(s.procs[q]).value;
    assert ProcSound(cfg, s.rows, s.procs[p]) && ProcSound(cfg, s.rows, s.procs[q]);
    assert Apart(s.procs[Min(p, q)], s.procs[Max(p, q)]);
    var k: nat :| ExplainedAt(cfg, s.rows, row, k);
    assert (s.rows + [done])[..k] == s.rows[..k];
    assert ExplainedAt(cfg, s.rows + [done], row, k);
  }

  lemma StepKeepsSerial(cfg: Config, s: State, l: Label)
    requires Sound(cfg, s) && SerialInv(cfg, s)
    ensures SerialInv(cfg, Step(cfg, s, l))
  {
    if Enabled(cfg, s, l) {
      var s' := Step(cfg, s, l);
      forall i | 0 <= i < |s'.rows| ensures Explained(cfg, s'.rows[..i], s'.rows[i]) {
        if i < |s.rows| {
          assert s'.rows[..i] == s.rows[..i];
        } else {
          assert s'.rows[..i] == s.rows;
          assert PendingRow(s.procs[l.p]) == Some(s'.rows[i]);
        }
      }
      forall q | 0 <= q < |s'.procs| && PendingRow(s'.procs[q]).Some?
        ensures Explained(cfg, s'.rows, PendingRow(s'.procs[q]).value)
      {
        if !l.Arrive? && q == l.p {
          NewlyExplained(cfg, s, l);
        } else if l.Commit? {
          CommitKeepsExplained(cfg, s, l.p, q);
        }
      }
    }
  }

  lemma {:induction false} RunKeepsSerial(cfg: Config, labels: seq<Label>)
    ensures SerialInv(cfg, Run(cfg, START, labels))
  {
    if labels != [] {
      RunKeepsSerial(cfg, labels[..|labels| - 1]);
      RunSound(cfg, labels[..|labels| - 1]);
      StepKeepsSerial(cfg, Run(cfg, START, labels[..|labels| - 1]), labels[|labels| - 1]);
    }
  }

  // In every interleaving each row, approved or declined, carries the verdict of a request served alone on some
  // earlier state of the table, and what was committed in between was not judged by the same budget.
  lemma VerdictsExplained(cfg: Config, labels: seq<Label>, i: nat)
    requires i < |Run(cfg, START, labels).rows|
    ensures var rows := Run(cfg, START, labels).rows;
      exists k: nat | k <= i ::
        && rows[i].verdict == SerialVerdict(cfg, rows[..k], rows[i])
        && forall m, b | k <= m < i && JudgedBy(cfg, rows[i], rows[i].org, b) :: !JudgedBy(cfg, rows[m], rows[i].org, b)
  {
    RunKeepsSerial(cfg, labels);
    var rows := Run(cfg, START, labels).rows;
    assert Explained(cfg, rows[..i], rows[i]);
    var k: nat :| ExplainedAt(cfg, rows[..i], rows[i], k);
    assert rows[..i][..k] == rows[..k];
    forall m, b | k <= m < i && JudgedBy(cfg, rows[i], rows[i].org, b)
      ensures !JudgedBy(cfg, rows[m], rows[i].org, b)
    {
      assert rows[..i][m] == rows[m];
    }
  }

  // What the budget's query counts among the rows, the budget also judged.
  predicate CountsOwn(cfg: Config, rows: seq<Row>, org: nat, b: Budget) {
    forall r | r in rows && r.org == org && r.verdict.approved && InScope(r.charge.scope, b.scope) ::
      JudgedBy(cfg, r, org, b)
  }

  lemma {:induction false} OthersUncounted(cfg: Config, rows: seq<Row>, k: nat, org: nat, b: Budget, start: Option<int>)
    requires k <= |rows| && CountsOwn(cfg, rows, org, b)
    requires forall m | k <= m < |rows| :: !JudgedBy(cfg, rows[m], org, b)
    ensures Spent(rows, org, b, start) == Spent(rows[..k], org, b, start)
  {
    if k < |rows| {
      var front := rows[..|rows| - 1];
      assert rows[|rows| - 1] in rows && forall r | r in front :: r in rows;
      OthersUncounted(cfg, front, k, org, b, start);
      assert front[..k] == rows[..k];
    } else {
      assert rows[..k] == rows;
    }
  }

  // When budgets do not overlap, the concurrent service is the serial one: the verdicts are those of serving the
  // charges one after another in the order of their rows.
  lemma ConcurrentIsSerial(cfg: Config, labels: seq<Label>, i: nat)
    requires i < |Run(cfg, START, labels).rows|
    ensures var rows := Run(cfg, START, labels).rows;
      (forall b | JudgedBy(cfg, rows[i], rows[i].org, b) :: CountsOwn(cfg, rows[..i], rows[i].org, b)) ==>
        rows[i].verdict == SerialVerdict(cfg, rows[..i], rows[i])
  {
    RunKeepsSerial(cfg, labels);
    var rows := Run(cfg, START, labels).rows;
    var r := rows[i];
    assert Explained(cfg, rows[..i], r);
    var k: nat :| ExplainedAt(cfg, rows[..i], r, k);
    var j := cfg.JudgeFor(r.org, r.charge.scope);
    if j.Accumulating? && CountsOwn(cfg, rows[..i], r.org, j.budget) {
      assert JudgedBy(cfg, r, r.org, j.budget);
      OthersUncounted(cfg, rows[..i], k, r.org, j.budget, WindowStart(j.budget.interval, r.decidedAt));
    }
  }
}
