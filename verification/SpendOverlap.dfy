/**
 Budgets that overlap, apps/api/captureos/services/spend.py `_evaluate`: a charge counts against every budget whose
 query finds it, but only the budget that judges it is locked. Exactly when a budget's verdicts are those of serving
 its charges in row order, and exactly when what it approved is capped for amounts of either sign.
 */
module SpendOverlap {
  import opened Wrappers
  import opened Calendar
  import opened SpendRules
  import opened SpendLedger
  import opened SpendCap
  import opened SpendCapExact
  import opened SpendCapLimits
  import opened SpendSerial
  import opened SpendReach
  import opened SpendScope
  import opened SpendScopeExact

  // ---------------------------------------------------------------------------
  // Two requests that overlap
  // ---------------------------------------------------------------------------

  // The lock that the row's request takes before it totals.
  function LockOf(cfg: Config, r: Row): Option<LockId> {
    var j := cfg.JudgeFor(r.org, r.charge.scope);
    if j.Accumulating? then Some((r.org, j.budget.id)) else None
  }

  // Both requests can run at once, each given its verdict on an empty table.
  ghost predicate CanOverlap(cfg: Config, x: Row, y: Row) {
    Servable(cfg, [], x) && Servable(cfg, [], y) && x.charge.authId != y.charge.authId &&
      (LockOf(cfg, x).None? || LockOf(cfg, x) != LockOf(cfg, y))
  }

  // Request 0 and request 1 after a run.
  ghost predicate At(cfg: Config, labels: seq<Label>, rows: seq<Row>, x: Charge, px: Phase, y: Charge, py: Phase) {
    Run(cfg, START, labels) == State(rows, [Proc(x, px), Proc(y, py)])
  }

  lemma Advance(cfg: Config, labels: seq<Label>, l: Label, next: Phase)
    requires var s := Run(cfg, START, labels);
      !l.Arrive? && Enabled(cfg, s, l) && NextPhase(cfg, s, l) == next
    ensures var s := Run(cfg, START, labels);
      Run(cfg, START, labels + [l])
      == State(if l.Commit? then s.rows + [s.procs[l.p].phase.row] else s.rows,
               s.procs[l.p := s.procs[l.p].(phase := next)])
  {
    assert (labels + [l])[..|labels|] == labels;
  }

  lemma BothBegun(cfg: Config, x: Row, y: Row) returns (labels: seq<Label>)
    requires CanOverlap(cfg, x, y)
    ensures At(cfg, labels, [], x.charge, Begun(x.org, x.createdAt), y.charge, Begun(y.org, y.createdAt))
  {
    labels := [Arrive(x.charge), Arrive(y.charge)];
    assert labels[..1] == [Arrive(x.charge)] && labels[..1][..0] == [];
    assert Run(cfg, START, labels[..1]) == State([], [Proc(x.charge, Waiting)]);
    assert At(cfg, labels, [], x.charge, Waiting, y.charge, Waiting);
    Advance(cfg, labels, Begin(0, x.createdAt), Begun(x.org, x.createdAt));
    labels := labels + [Begin(0, x.createdAt)];
    assert At(cfg, labels, [], x.charge, Begun(x.org, x.createdAt), y.charge, Waiting);
    Advance(cfg, labels, Begin(1, y.createdAt), Begun(y.org, y.createdAt));
    labels := labels + [Begin(1, y.createdAt)];
  }

  lemma XDecided(cfg: Config, x: Row, y: Row) returns (labels: seq<Label>)
    requires CanOverlap(cfg, x, y)
    ensures At(cfg, labels, [], x.charge, Decided(x, LockOf(cfg, x)), y.charge, Begun(y.org, y.createdAt))
  {
    labels := BothBegun(cfg, x, y);
    var j := cfg.JudgeFor(x.org, x.charge.scope);
    if j.Accumulating? {
      Advance(cfg, labels, Evaluate(0, x.decidedAt), Locked(x.org, x.createdAt, j.budget));
      labels := labels + [Evaluate(0, x.decidedAt)];
      Advance(cfg, labels, Total(0, x.decidedAt), Decided(x, LockOf(cfg, x)));
      labels := labels + [Total(0, x.decidedAt)];
    } else {
      Advance(cfg, labels, Evaluate(0, x.decidedAt), Decided(x, None));
      labels := labels + [Evaluate(0, x.decidedAt)];
    }
  }

  lemma YDecided(cfg: Config, x: Row, y: Row) returns (labels: seq<Label>)
    requires CanOverlap(cfg, x, y)
    ensures At(cfg, labels, [], x.charge, Decided(x, LockOf(cfg, x)), y.charge, Decided(y, LockOf(cfg, y)))
  {
    labels := XDecided(cfg, x, y);
    var j := cfg.JudgeFor(y.org, y.charge.scope);
    if j.Accumulating? {
      Advance(cfg, labels, Evaluate(1, y.decidedAt), Locked(y.org, y.createdAt, j.budget));
      labels := labels + [Evaluate(1, y.decidedAt)];
      Advance(cfg, labels, Total(1, y.decidedAt), Decided(y, LockOf(cfg, y)));
      labels := labels + [Total(1, y.decidedAt)];
    } else {
      Advance(cfg, labels, Evaluate(1, y.decidedAt), Decided(y, None));
      labels := labels + [Evaluate(1, y.decidedAt)];
    }
  }

  function Given(r: Row): Phase {
    Answered(Answer(r.verdict, Some(r), false))
  }

  lemma YCommitted(cfg: Config, x: Row, y: Row) returns (labels: seq<Label>)
    requires CanOverlap(cfg, x, y)
    ensures At(cfg, labels, [y], x.charge, Decided(x, LockOf(cfg, x)), y.charge, Given(y))
  {
    labels := YDecided(cfg, x, y);
    Advance(cfg, labels, Insert(1), Inserted(y, LockOf(cfg, y)));
    labels := labels + [Insert(1)];
    Advance(cfg, labels, Commit(1), Given(y));
    labels := labels + [Commit(1)];
  }

  // Both are judged on the empty table, and the second commits first.
  lemma OverlapIsReachable(cfg: Config, x: Row, y: Row) returns (labels: seq<Label>)
    requires CanOverlap(cfg, x, y)
    ensures Run(cfg, START, labels).rows == [y, x]
  {
    labels := YCommitted(cfg, x, y);
    Advance(cfg, labels, Insert(0), Inserted(x, LockOf(cfg, x)));
    labels := labels + [Insert(0)];
    Advance(cfg, labels, Commit(0), Given(x));
    labels := labels + [Commit(0)];
  }

  // A category charge of 10 is totalled, a merchant charge of 5 in that category commits, then the first commits as
  // approved: in the order of the rows it would have been over its budget.
  lemma OverlapMatters()
    ensures var m, c := Budget(1, Only(Merchant, Some("a")), 10, AllTime),
      Budget(2, Only(Category, Some("f")), 10, AllTime);
      var first, second := NoonRow("y", Scope(Some("a"), None, Some("f")), 5),
        NoonRow("x", Only(Category, Some("f")), 10);
      && SerialVerdict(OneCard([m, c]), [first], second) == Verdict(false, OverBudget) != second.verdict
      && exists labels :: Run(OneCard([m, c]), START, labels).rows == [first, second]
  {
    var m, c := Budget(1, Only(Merchant, Some("a")), 10, AllTime), Budget(2, Only(Category, Some("f")), 10, AllTime);
    var both, plain := Scope(Some("a"), None, Some("f")), Only(Category, Some("f"));
    TwoBudgetsJudge(m, c, both, plain);
    SpentMore([], NoonRow("y", both, 5), 0, c, None);
    assert [] + [NoonRow("y", both, 5)] == [NoonRow("y", both, 5)];
    var labels := OverlapIsReachable(OneCard([m, c]), NoonRow("x", plain, 10), NoonRow("y", both, 5));
  }

  // ---------------------------------------------------------------------------
  // Verdicts in row order
  // ---------------------------------------------------------------------------

  // The budget's rows have the verdicts of serving the rows one after another.
  predicate InRowOrder(cfg: Config, rows: seq<Row>, org: nat, b: Budget) {
    forall i | 0 <= i < |rows| && JudgedBy(cfg, rows[i], org, b) ::
      rows[i].verdict == SerialVerdict(cfg, rows[..i], rows[i])
  }

  predicate KeyedById(budgets: seq<Budget>) {
    forall a, b | a in budgets && b in budgets && a.id == b.id :: a == b
  }

  lemma SoleJudgeInOrder(cfg: Config, labels: seq<Label>, org: nat, b: Budget)
    requires SoleJudge(cfg, org, b)
    ensures InRowOrder(cfg, Run(cfg, START, labels).rows, org, b)
  {
    var rows := Run(cfg, START, labels).rows;
    forall i | 0 <= i < |rows| && JudgedBy(cfg, rows[i], org, b)
      ensures rows[i].verdict == SerialVerdict(cfg, rows[..i], rows[i])
    {
      forall k | 0 <= k < i ensures Sane(cfg, rows[..i][k]) {
        RowSane(cfg, labels, k);
      }
      assert CountsOwn(cfg, rows[..i], org, b);
      ConcurrentIsSerial(cfg, labels, i);
    }
  }

  // A charge one past the limit, and a negative one of another judge that makes room for it.
  function Declined(card: string, org: nat, b: Budget, own: Scope, t: Moment): Row {
    Approval(card, org, 1, own, b.limit + 1, t).(verdict := Verdict(false, OverBudget))
  }

  function MakesRoom(cfg: Config, card: string, org: nat, e: Scope, t: Moment): Row
    requires !cfg.JudgeFor(org, e).Refused?
  {
    Approval(card, org, 0, e, -1 - Abs(cfg.JudgeFor(org, e).budget.limit), t)
  }

  lemma WouldFit(cfg: Config, card: string, org: nat, b: Budget, own: Scope, e: Scope, t: Moment)
    requires cfg.JudgeFor(org, own) == Accumulating(b) && InScope(e, b.scope) && !cfg.JudgeFor(org, e).Refused?
    ensures SerialVerdict(cfg, [MakesRoom(cfg, card, org, e, t)], Declined(card, org, b, own, t)).approved
  {
    var y := MakesRoom(cfg, card, org, e, t);
    ReportedMore(card, [], 0, e, y.charge.amount, org, b, t);
    assert [] + [y] == [y];
  }

  lemma BothCanRun(cfg: Config, card: string, org: nat, b: Budget, own: Scope, e: Scope, t: Moment)
    requires card in cfg.cards && cfg.cards[card] == org && KeyedById(BudgetsOf(cfg, org))
    requires cfg.JudgeFor(org, own) == Accumulating(b)
    requires !cfg.JudgeFor(org, e).Refused? && cfg.JudgeFor(org, e) != Accumulating(b)
    ensures CanOverlap(cfg, Declined(card, org, b, own, t), MakesRoom(cfg, card, org, e, t))
  {
    var x, y := Declined(card, org, b, own, t), MakesRoom(cfg, card, org, e, t);
    assert |x.charge.authId| == 1 && |y.charge.authId| == 0;
    DifferentLocks(cfg, org, own, b, e);
  }

  lemma DifferentLocks(cfg: Config, org: nat, own: Scope, b: Budget, e: Scope)
    requires KeyedById(BudgetsOf(cfg, org)) && cfg.JudgeFor(org, own) == Accumulating(b)
    ensures var j := cfg.JudgeFor(org, e); j.Accumulating? && j.budget != b ==> j.budget.id != b.id
  {
    var k := PickPosition(cfg, org, own, b);
    var j := cfg.JudgeFor(org, e);
    if j.Accumulating? {
      var i := PickPosition(cfg, org, e, j.budget);
    }
  }

  // Declined when it was totalled, though the negative charge committed since would have made room for it.
  lemma ForeignJudgeReorders(cfg: Config, card: string, org: nat, b: Budget, own: Scope, e: Scope, t: Moment)
      returns (labels: seq<Label>)
    requires card in cfg.cards && cfg.cards[card] == org && KeyedById(BudgetsOf(cfg, org))
    requires cfg.JudgeFor(org, own) == Accumulating(b)
    requires InScope(e, b.scope) && !cfg.JudgeFor(org, e).Refused? && cfg.JudgeFor(org, e) != Accumulating(b)
    ensures !InRowOrder(cfg, Run(cfg, START, labels).rows, org, b)
  {
    var x, y := Declined(card, org, b, own, t), MakesRoom(cfg, card, org, e, t);
    BothCanRun(cfg, card, org, b, own, e, t);
    labels := OverlapIsReachable(cfg, x, y);
    WouldFit(cfg, card, org, b, own, e, t);
    assert [y, x][..1] == [y] && [y, x][1] == x;
  }

  // A budget's verdicts are serial in row order in every run, for charges of either sign, if and only if every scope
  // that its query counts is refused or judged by that budget.
  lemma SerialExactly(cfg: Config, card: string, org: nat, b: Budget, own: Scope, t: Moment)
    requires card in cfg.cards && cfg.cards[card] == org && KeyedById(BudgetsOf(cfg, org))
    requires cfg.JudgeFor(org, own) == Accumulating(b)
    ensures (forall labels :: InRowOrder(cfg, Run(cfg, START, labels).rows, org, b)) <==> SoleJudge(cfg, org, b)
  {
    if SoleJudge(cfg, org, b) {
      forall labels ensures InRowOrder(cfg, Run(cfg, START, labels).rows, org, b) {
        SoleJudgeInOrder(cfg, labels, org, b);
      }
    } else {
      var e: Scope :| InScope(e, b.scope) && !cfg.JudgeFor(org, e).Refused? && cfg.JudgeFor(org, e) != Accumulating(b);
      var labels := ForeignJudgeReorders(cfg, card, org, b, own, e, t);
    }
  }

  // ---------------------------------------------------------------------------
  // What the budget itself approved
  // ---------------------------------------------------------------------------

  lemma ChargedMore(cfg: Config, rows: seq<Row>, r: Row, org: nat, b: Budget, w: Option<int>)
    ensures Charged(cfg, rows + [r], org, b, w, true) == Charged(cfg, rows, org, b, w, true)
      + if Governed(cfg, r, org, b) && WindowStart(b.interval, r.decidedAt) == w && SelfCounting(r, b)
        then r.charge.amount else 0
  {
    assert (rows + [r])[..|rows|] == rows;
  }

  // What its query counts is then what it approved.
  lemma {:induction false} ChargedIsSpent(cfg: Config, rows: seq<Row>, org: nat, b: Budget, w: Option<int>)
    requires SoleJudge(cfg, org, b) && Timely(rows, b, w) && forall r | r in rows :: Sane(cfg, r)
    ensures Charged(cfg, rows, org, b, w, true) == Spent(rows, org, b, w)
  {
    if rows != [] {
      var front, r := rows[..|rows| - 1], rows[|rows| - 1];
      assert rows == front + [r];
      ChargedIsSpent(cfg, front, org, b, w);
      ChargedMore(cfg, front, r, org, b, w);
      SpentMore(front, r, org, b, w);
      assert r in rows;
    }
  }

  lemma SoleJudgeCapped(cfg: Config, labels: seq<Label>, org: nat, b: Budget, w: Option<int>)
    requires SoleJudge(cfg, org, b) && Timely(Run(cfg, START, labels).rows, b, w)
    ensures Charged(cfg, Run(cfg, START, labels).rows, org, b, w, true) <= Max(0, b.limit)
  {
    var rows := Run(cfg, START, labels).rows;
    forall r | r in rows ensures Sane(cfg, r) {
      var i :| 0 <= i < |rows| && rows[i] == r;
      RowSane(cfg, labels, i);
    }
    ChargedIsSpent(cfg, rows, org, b, w);
    assert OwnsScope(cfg, org, b);
    OwnedScopeCapped(cfg, labels, org, b, w);
  }

  lemma OwnIsCharged(cfg: Config, card: string, org: nat, b: Budget, own: Scope, e: Scope, foreign: int, amount: int,
      t: Moment)
    requires InScope(own, b.scope) && cfg.JudgeFor(org, own) == Accumulating(b)
    requires cfg.JudgeFor(org, e) != Accumulating(b)
    ensures var rows := [Approval(card, org, 0, e, foreign, t), Approval(card, org, 1, own, amount, t)];
      Charged(cfg, rows, org, b, WindowStart(b.interval, t), true) == amount
  {
    var w := WindowStart(b.interval, t);
    var first, second := Approval(card, org, 0, e, foreign, t), Approval(card, org, 1, own, amount, t);
    assert [] + [first] == [first] && [first] + [second] == [first, second];
    ChargedMore(cfg, [], first, org, b, w);
    ChargedMore(cfg, [first], second, org, b, w);
    CountsAt(card, org, 1, own, amount, t, b);
  }

  lemma ServedFirst(cfg: Config, card: string, org: nat, e: Scope, amount: int, t: Moment) returns (labels: seq<Label>)
    requires card in cfg.cards && cfg.cards[card] == org
    requires !cfg.JudgeFor(org, e).Refused? && amount <= cfg.JudgeFor(org, e).budget.limit
    ensures var s := Run(cfg, START, labels);
      Quiet(s.procs) && s.rows == [Approval(card, org, 0, e, amount, t)]
  {
    var r := Approval(card, org, 0, e, amount, t);
    assert Run(cfg, START, []) == START && SerialVerdict(cfg, [], r) == r.verdict;
    labels := ServedAfter(cfg, [], r);
    assert [] + [r] == [r];
  }

  lemma FirstReported(card: string, org: nat, b: Budget, e: Scope, amount: int, t: Moment)
    requires InScope(e, b.scope)
    ensures Reported([Approval(card, org, 0, e, amount, t)], org, b, t) == amount
  {
    ReportedMore(card, [], 0, e, amount, org, b, t);
    assert [] + [Approval(card, org, 0, e, amount, t)] == [Approval(card, org, 0, e, amount, t)];
  }

  lemma SecondServable(cfg: Config, card: string, org: nat, b: Budget, own: Scope, e: Scope, foreign: int, amount: int,
      t: Moment)
    requires card in cfg.cards && cfg.cards[card] == org && cfg.JudgeFor(org, own) == Accumulating(b)
    requires InScope(e, b.scope) && foreign + amount <= b.limit
    ensures Servable(cfg, [Approval(card, org, 0, e, foreign, t)], Approval(card, org, 1, own, amount, t))
  {
    FirstReported(card, org, b, e, foreign, t);
    assert |Approval(card, org, 0, e, foreign, t).charge.authId| == 0;
    assert |Approval(card, org, 1, own, amount, t).charge.authId| == 1;
  }

  lemma ServedSecond(cfg: Config, card: string, org: nat, b: Budget, own: Scope, e: Scope, foreign: int, amount: int,
      t: Moment, before: seq<Label>)
      returns (labels: seq<Label>)
    requires card in cfg.cards && cfg.cards[card] == org && cfg.JudgeFor(org, own) == Accumulating(b)
    requires InScope(e, b.scope) && foreign + amount <= b.limit
    requires var s := Run(cfg, START, before); Quiet(s.procs) && s.rows == [Approval(card, org, 0, e, foreign, t)]
    ensures Run(cfg, START, labels).rows
      == [Approval(card, org, 0, e, foreign, t), Approval(card, org, 1, own, amount, t)]
  {
    var second := Approval(card, org, 1, own, amount, t);
    SecondServable(cfg, card, org, b, own, e, foreign, amount, t);
    labels := ServedAfter(cfg, before, second);
  }

  // A negative charge that another budget judges makes room that the budget then fills.
  lemma ForeignJudgeExceeds(cfg: Config, card: string, org: nat, b: Budget, own: Scope, e: Scope, t: Moment)
      returns (labels: seq<Label>)
    requires card in cfg.cards && cfg.cards[card] == org
    requires InScope(own, b.scope) && cfg.JudgeFor(org, own) == Accumulating(b)
    requires InScope(e, b.scope) && !cfg.JudgeFor(org, e).Refused? && cfg.JudgeFor(org, e) != Accumulating(b)
    ensures var rows := Run(cfg, START, labels).rows;
      Timely(rows, b, WindowStart(b.interval, t)) &&
        Charged(cfg, rows, org, b, WindowStart(b.interval, t), true) > Max(0, b.limit)
  {
    var room := Abs(b.limit) + Abs(cfg.JudgeFor(org, e).budget.limit) + 1;
    OwnIsCharged(cfg, card, org, b, own, e, 0 - room, room + b.limit, t);
    var before := ServedFirst(cfg, card, org, e, 0 - room, t);
    labels := ServedSecond(cfg, card, org, b, own, e, 0 - room, room + b.limit, t, before);
    TimelyAt(Run(cfg, START, labels).rows, b, t);
  }

  // What a budget approved in a window and its query finds is within the limit in every run, for charges of either
  // sign, if and only if every scope that the query counts is refused or judged by that budget.
  lemma ChargedCapExactly(cfg: Config, card: string, org: nat, b: Budget, own: Scope, t: Moment)
    requires card in cfg.cards && cfg.cards[card] == org
    requires InScope(own, b.scope) && cfg.JudgeFor(org, own) == Accumulating(b)
    ensures var w := WindowStart(b.interval, t);
      (forall labels | Timely(Run(cfg, START, labels).rows, b, w) ::
         Charged(cfg, Run(cfg, START, labels).rows, org, b, w, true) <= Max(0, b.limit))
      <==> SoleJudge(cfg, org, b)
  {
    var w := WindowStart(b.interval, t);
    if SoleJudge(cfg, org, b) {
      forall labels | Timely(Run(cfg, START, labels).rows, b, w)
        ensures Charged(cfg, Run(cfg, START, labels).rows, org, b, w, true) <= Max(0, b.limit)
      {
        SoleJudgeCapped(cfg, labels, org, b, w);
      }
    } else {
      var e: Scope :| InScope(e, b.scope) && !cfg.JudgeFor(org, e).Refused? && cfg.JudgeFor(org, e) != Accumulating(b);
      var labels := ForeignJudgeExceeds(cfg, card, org, b, own, e, t);
      assert Timely(Run(cfg, START, labels).rows, b, w);
    }
  }
}
