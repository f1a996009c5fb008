/**
 The total that a budget's query reports, apps/api/captureos/services/spend.py `_spend_so_far`. It counts by scope
 and so includes charges that other budgets approved. Exactly when it is capped by the limit, for amounts of either
 sign, is a matter of who judges the scopes it counts.
 */
module SpendScope {
  import opened Wrappers
  import opened Calendar
  import opened SpendRules
  import opened SpendLedger
  import opened SpendSerial

  // ---------------------------------------------------------------------------
  // Who judges what the query counts
  // ---------------------------------------------------------------------------

  // Nothing can be added to the budget's scope without the budget's consent.
  predicate Harmless(j: Judgement, b: Budget) {
    match j
    case Refused(_) => true
    case Accumulating(other) => other == b
    case PerCharge(other) => other.limit <= 0
  }

  // Every scope that the query counts is refused, judged by the budget, or judged charge by charge with no room.
  ghost predicate OwnsScope(cfg: Config, org: nat, b: Budget) {
    forall e: Scope | InScope(e, b.scope) :: Harmless(cfg.JudgeFor(org, e), b)
  }

  // The stronger condition: every scope that the query counts is refused or judged by the budget.
  ghost predicate SoleJudge(cfg: Config, org: nat, b: Budget) {
    forall e: Scope | InScope(e, b.scope) ::
      cfg.JudgeFor(org, e).Refused? || cfg.JudgeFor(org, e) == Accumulating(b)
  }

  // What counts since w was judged in the window that opens at w.
  predicate Timely(rows: seq<Row>, b: Budget, w: Option<int>) {
    forall r | r in rows && SinceStart(w, r.createdAt) :: WindowStart(b.interval, r.decidedAt) == w
  }

  // ---------------------------------------------------------------------------
  // An owned scope is capped
  // ---------------------------------------------------------------------------

  // An approval is by a budget with room.
  predicate Sane(cfg: Config, r: Row) {
    r.verdict.approved ==> match cfg.JudgeFor(r.org, r.charge.scope)
      case Refused(_) => false
      case PerCharge(b) => r.charge.amount <= b.limit
      case Accumulating(_) => true
  }

  lemma RowSane(cfg: Config, labels: seq<Label>, i: nat)
    requires i < |Run(cfg, START, labels).rows|
    ensures Sane(cfg, Run(cfg, START, labels).rows[i])
  {
    VerdictsExplained(cfg, labels, i);
  }

  predicate Counted(r: Row, org: nat, b: Budget, w: Option<int>) {
    r.org == org && r.verdict.approved && InScope(r.charge.scope, b.scope) && SinceStart(w, r.createdAt)
  }

  lemma SpentMore(rows: seq<Row>, r: Row, org: nat, b: Budget, w: Option<int>)
    ensures Spent(rows + [r], org, b, w) == Spent(rows, org, b, w) + if Counted(r, org, b, w) then r.charge.amount
      else 0
  {
    assert (rows + [r])[..|rows|] == rows;
  }

  lemma ForeignOnlyLowers(cfg: Config, r: Row, org: nat, b: Budget, w: Option<int>)
    requires OwnsScope(cfg, org, b) && Sane(cfg, r) && !JudgedBy(cfg, r, org, b) && Counted(r, org, b, w)
    ensures r.charge.amount <= 0
  {
    assert Harmless(cfg.JudgeFor(org, r.charge.scope), b);
  }

  lemma ForeignRowLowers(cfg: Config, rows: seq<Row>, r: Row, org: nat, b: Budget, w: Option<int>)
    requires OwnsScope(cfg, org, b) && Sane(cfg, r) && !JudgedBy(cfg, r, org, b)
    ensures Spent(rows + [r], org, b, w) <= Spent(rows, org, b, w)
  {
    SpentMore(rows, r, org, b, w);
    if Counted(r, org, b, w) {
      ForeignOnlyLowers(cfg, r, org, b, w);
    }
  }

  // Rows that others judged do not raise the total.
  lemma {:induction false} OthersOnlyLower(cfg: Config, rows: seq<Row>, k: nat, org: nat, b: Budget, w: Option<int>)
    requires OwnsScope(cfg, org, b) && k <= |rows|
    requires forall m | k <= m < |rows| :: Sane(cfg, rows[m]) && !JudgedBy(cfg, rows[m], org, b)
    ensures Spent(rows, org, b, w) <= Spent(rows[..k], org, b, w)
  {
    if k < |rows| {
      var front, r := rows[..|rows| - 1], rows[|rows| - 1];
      OthersOnlyLower(cfg, front, k, org, b, w);
      assert rows == front + [r] && front[..k] == rows[..k];
      ForeignRowLowers(cfg, front, r, org, b, w);
    } else {
      assert rows[..k] == rows;
    }
  }

  lemma OwnChargeFits(cfg: Config, labels: seq<Label>, i: nat, org: nat, b: Budget, w: Option<int>)
    requires i < |Run(cfg, START, labels).rows| && OwnsScope(cfg, org, b)
    requires var r := Run(cfg, START, labels).rows[i];
      Counted(r, org, b, w) && JudgedBy(cfg, r, org, b) && WindowStart(b.interval, r.decidedAt) == w
    ensures var rows := Run(cfg, START, labels).rows; Spent(rows[..i], org, b, w) + rows[i].charge.amount <= b.limit
  {
    var rows := Run(cfg, START, labels).rows;
    VerdictsExplained(cfg, labels, i);
    var k: nat :| k <= i && rows[i].verdict == SerialVerdict(cfg, rows[..k], rows[i])
      && forall m, x | k <= m < i && JudgedBy(cfg, rows[i], org, x) :: !JudgedBy(cfg, rows[m], org, x);
    forall m | k <= m < i ensures Sane(cfg, rows[..i][m]) && !JudgedBy(cfg, rows[..i][m], org, b) {
      RowSane(cfg, labels, m);
    }
    OthersOnlyLower(cfg, rows[..i], k, org, b, w);
    assert rows[..i][..k] == rows[..k];
  }

  // The next row stays within the limit, or does not raise the total.
  lemma NextRowFits(cfg: Config, labels: seq<Label>, i: nat, org: nat, b: Budget, w: Option<int>)
    requires OwnsScope(cfg, org, b) && i < |Run(cfg, START, labels).rows| && Timely(Run(cfg, START, labels).rows, b, w)
    ensures var rows := Run(cfg, START, labels).rows;
      Spent(rows[..i] + [rows[i]], org, b, w) <= Max(b.limit, Spent(rows[..i], org, b, w))
  {
    var rows := Run(cfg, START, labels).rows;
    var r := rows[i];
    SpentMore(rows[..i], r, org, b, w);
    if Counted(r, org, b, w) {
      assert r in rows;
      if JudgedBy(cfg, r, org, b) {
        OwnChargeFits(cfg, labels, i, org, b, w);
      } else {
        RowSane(cfg, labels, i);
        ForeignRowLowers(cfg, rows[..i], r, org, b, w);
      }
    }
  }

  lemma {:induction false} PrefixCapped(cfg: Config, labels: seq<Label>, n: nat, org: nat, b: Budget, w: Option<int>)
    requires OwnsScope(cfg, org, b) && n <= |Run(cfg, START, labels).rows| && Timely(Run(cfg, START, labels).rows, b, w)
    ensures Spent(Run(cfg, START, labels).rows[..n], org, b, w) <= Max(0, b.limit)
  {
    if n > 0 {
      var rows := Run(cfg, START, labels).rows;
      PrefixCapped(cfg, labels, n - 1, org, b, w);
      assert rows[..n] == rows[..n - 1] + [rows[n - 1]];
      NextRowFits(cfg, labels, n - 1, org, b, w);
    }
  }

  // Over every interleaving of charges of either sign, the reported total of a budget that owns its scope stays
  // within its limit.
  lemma OwnedScopeCapped(cfg: Config, labels: seq<Label>, org: nat, b: Budget, w: Option<int>)
    requires OwnsScope(cfg, org, b) && Timely(Run(cfg, START, labels).rows, b, w)
    ensures Spent(Run(cfg, START, labels).rows, org, b, w) <= Max(0, b.limit)
  {
    var rows := Run(cfg, START, labels).rows;
    PrefixCapped(cfg, labels, |rows|, org, b, w);
    assert rows[..|rows|] == rows;
  }
}
