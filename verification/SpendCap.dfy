/**
 The budget cap over every interleaving, and exactly when it holds. The totalling query compares
 identifiers exactly and tests the stored creation time, while the budget was chosen by a trimmed,
 case-folded comparison and the window by a later clock read, so the cap rests on a charge being
 found by the query that approved it.
 */
module SpendCap {
  import opened Wrappers
  import opened Text
  import opened Calendar
  import opened SpendRules
  import opened SpendLedger

  predicate Governed(cfg: Config, r: Row, org: nat, b: Budget) {
    r.org == org && r.verdict.approved && cfg.JudgeFor(org, r.charge.scope) == Accumulating(b)
  }

  // The query that totals this budget at the row's decision time finds the row itself.
  predicate SelfCounting(r: Row, b: Budget) {
    InScope(r.charge.scope, b.scope) && SinceStart(WindowStart(b.interval, r.decidedAt), r.createdAt)
  }

  // What budget b approved in the window that starts at w; of these only the self-counting rows if so asked.
  function Charged(cfg: Config, rows: seq<Row>, org: nat, b: Budget, w: Option<int>, selfCountingOnly: bool): int {
    if rows == [] then 0
    else
      var r := rows[|rows| - 1];
      Charged(cfg, rows[..|rows| - 1], org, b, w, selfCountingOnly)
      + if Governed(cfg, r, org, b) && WindowStart(b.interval, r.decidedAt) == w &&
        (selfCountingOnly ==> SelfCounting(r, b))
        then r.charge.amount else 0
  }

  predicate NonNegativeRows(rows: seq<Row>) {
    forall r | r in rows :: r.charge.amount >= 0
  }

  predicate NonNegative(labels: seq<Label>) {
    forall l | l in labels && l.Arrive? :: l.charge.amount >= 0
  }

  lemma {:induction false} ChargedWithinSpent(cfg: Config, rows: seq<Row>, org: nat, b: Budget, w: Option<int>)
    requires NonNegativeRows(rows)
    ensures Charged(cfg, rows, org, b, w, true) <= Spent(rows, org, b, w)
  {
    if rows != [] {
      ChargedWithinSpent(cfg, rows[..|rows| - 1], org, b, w);
      assert rows[|rows| - 1] in rows;
    }
  }

  function PendingRow(proc: Proc): Option<Row> {
    match proc.phase
    case Decided(row, _) => Some(row)
    case Inserted(row, _) => Some(row)
    case _ => None
  }

  // A pending approval still fits: what its budget has approved so far, plus itself, is in the limit.
  ghost predicate Fits(cfg: Config, rows: seq<Row>, row: Row) {
    forall b | Governed(cfg, row, row.org, b) ::
      Charged(cfg, rows, row.org, b, WindowStart(b.interval, row.decidedAt), true) + row.charge.amount <= b.limit
  }

  ghost predicate CapInv(cfg: Config, s: State) {
    && NonNegativeRows(s.rows)
    && (forall p | 0 <= p < |s.procs| :: s.procs[p].charge.amount >= 0)
    && (forall p | 0 <= p < |s.procs| && PendingRow(s.procs[p]).Some? ::
      Fits(cfg, s.rows, PendingRow(s.procs[p]).value))
    && (forall org, b, w :: Charged(cfg, s.rows, org, b, w, true) <= Max(0, b.limit))
  }

  lemma TotalFits(cfg: Config, s: State, l: Label)
    requires Sound(cfg, s) && CapInv(cfg, s) && !l.Arrive? && Enabled(cfg, s, l)
    requires PendingRow(Proc(s.procs[l.p].charge, NextPhase(cfg, s, l))).Some?
    ensures Fits(cfg, s.rows, PendingRow(Proc(s.procs[l.p].charge, NextPhase(cfg, s, l))).value)
  {
    assert ProcSound(cfg, s.rows, s.procs[l.p]);
    if l.Total? {
      var row := NextPhase(cfg, s, l).row;
      forall b | Governed(cfg, row, row.org, b)
        ensures Charged(cfg, s.rows, row.org, b, WindowStart(b.interval, row.decidedAt), true) +
          row.charge.amount <= b.limit
      {
        ChargedWithinSpent(cfg, s.rows, row.org, b, WindowStart(b.interval, row.decidedAt));
      }
    }
  }

  // A commit leaves every other pending approval alone: sharing a budget would mean sharing its lock.
  lemma CommitKeepsFit(cfg: Config, s: State, p: nat, q: nat)
    requires Sound(cfg, s) && CapInv(cfg, s) && p < |s.procs| && q < |s.procs| && p != q
    requires s.procs[p].phase.Inserted? && PendingRow(s.procs[q]).Some?
    ensures Fits(cfg, s.rows + [s.procs[p].phase.row], PendingRow(s.procs[q]).value)
  {
    var done, row := s.procs[p].phase.row, PendingRow(s.procs[q]).value;
    assert ProcSound(cfg, s.rows, s.procs[p]) && ProcSound(cfg, s.rows, s.procs[q]);
    assert Apart(s.procs[Min(p, q)], s.procs[Max(p, q)]);
    assert (s.rows + [done])[..|s.rows|] == s.rows;
    assert Fits(cfg, s.rows, row);
  }

  lemma CommitKeepsCap(cfg: Config, s: State, p: nat, org: nat, b: Budget, w: Option<int>)
    requires Sound(cfg, s) && CapInv(cfg, s) && p < |s.procs| && s.procs[p].phase.Inserted?
    ensures Charged(cfg, s.rows + [s.procs[p].phase.row], org, b, w, true) <= Max(0, b.limit)
  {
    var done := s.procs[p].phase.row;
    assert PendingRow(s.procs[p]) == Some(done);
    assert Fits(cfg, s.rows, done);
    assert (s.rows + [done])[..|s.rows|] == s.rows;
    assert Charged(cfg, s.rows, org, b, w, true) <= Max(0, b.limit);
  }

  lemma StepKeepsCap(cfg: Config, s: State, l: Label)
    requires Sound(cfg, s) && CapInv(cfg, s)
    requires l.Arrive? ==> l.charge.amount >= 0
    ensures CapInv(cfg, Step(cfg, s, l))
  {
    if Enabled(cfg, s, l) {
      var s' := Step(cfg, s, l);
      if l.Commit? {
        assert ProcSound(cfg, s.rows, s.procs[l.p]);
        forall org, b, w ensures Charged(cfg, s'.rows, org, b, w, true) <= Max(0, b.limit) {
          CommitKeepsCap(cfg, s, l.p, org, b, w);
        }
      }
      forall q | 0 <= q < |s'.procs| && PendingRow(s'.procs[q]).Some?
        ensures Fits(cfg, s'.rows, PendingRow(s'.procs[q]).value)
      {
        if !l.Arrive? && q == l.p {
          TotalFits(cfg, s, l);
        } else if l.Commit? {
          CommitKeepsFit(cfg, s, l.p, q);
        }
      }
    }
  }

  lemma {:induction false} RunKeepsCap(cfg: Config, labels: seq<Label>)
    requires NonNegative(labels)
    ensures Sound(cfg, Run(cfg, START, labels)) && CapInv(cfg, Run(cfg, START, labels))
  {
    RunSound(cfg, labels);
    if labels == [] {
      forall org, b, w ensures Charged(cfg, [], org, b, w, true) == 0 {}
    } else {
      var n := |labels| - 1;
      forall l | l in labels[..n] ensures l in labels {}
      RunKeepsCap(cfg, labels[..n]);
      assert labels[n] in labels;
      StepKeepsCap(cfg, Run(cfg, START, labels[..n]), labels[n]);
    }
  }

  lemma {:induction false} AllSelfCounting(cfg: Config, rows: seq<Row>, org: nat, b: Budget, w: Option<int>)
    requires forall r | r in rows && Governed(cfg, r, org, b) :: SelfCounting(r, b)
    ensures Charged(cfg, rows, org, b, w, false) == Charged(cfg, rows, org, b, w, true)
  {
    if rows != [] {
      AllSelfCounting(cfg, rows[..|rows| - 1], org, b, w);
      assert rows[|rows| - 1] in rows;
    }
  }

  // The cap. Charges approved under other budgets commit meanwhile without the lock and count only
  // against the room that is left; they never let this budget's own charges past its limit.
  lemma BudgetCap(cfg: Config, labels: seq<Label>, org: nat, b: Budget, w: Option<int>)
    requires NonNegative(labels)
    ensures var rows := Run(cfg, START, labels).rows;
      && Charged(cfg, rows, org, b, w, true) <= Max(0, b.limit)
      && ((forall r | r in rows && Governed(cfg, r, org, b) :: SelfCounting(r, b)) ==>
            Charged(cfg, rows, org, b, w, false) <= Max(0, b.limit))
  {
    RunKeepsCap(cfg, labels);
    var rows := Run(cfg, START, labels).rows;
    if forall r | r in rows && Governed(cfg, r, org, b) :: SelfCounting(r, b) {
      AllSelfCounting(cfg, rows, org, b, w);
    }
  }

  // The column that the query compares: merchant, or else mcc, or else category.
  predicate FirstColumn(b: Scope, d: Dim) {
    match d
    case Merchant => Present(b.merchant)
    case Mcc => !Present(b.merchant) && Present(b.mcc)
    case Category => !Present(b.merchant) && !Present(b.mcc) && Present(b.category)
  }

  // What self-counting asks of a caller: on the first column of the budget, charge and budget are spelled alike,
  // and the transaction started in the period in which it was judged.
  lemma SelfCountingMeaning(r: Row, b: Budget, d: Dim)
    requires FirstColumn(b.scope, d) && Instant(r.createdAt) <= Instant(r.decidedAt)
    ensures SelfCounting(r, b) <==>
      r.charge.scope.At(d) == b.scope.At(d) && SamePeriod(b.interval, r.createdAt, r.decidedAt)
    ensures Hits(r.charge.scope, b.scope, d) && Norm(r.charge.scope.At(d).value) == r.charge.scope.At(d).value &&
      Norm(b.scope.At(d).value) == b.scope.At(d).value
      ==> r.charge.scope.At(d) == b.scope.At(d)
  {
    WindowSelectsPeriod(b.interval, r.createdAt, r.decidedAt);
  }
}
