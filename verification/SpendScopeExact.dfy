/**
 The other half of SpendScope: a budget whose scope others can charge is reported past its limit in some run, so
 owning the scope is the exact condition.
 */
module SpendScopeExact {
  import opened Wrappers
  import opened Text
  import opened Calendar
  import opened SpendRules
  import opened SpendLedger
  import opened SpendReach
  import opened SpendScope

  predicate OneColumn(b: Budget, d: Dim) {
    Present(b.scope.At(d)) && b.scope == Only(d, b.scope.At(d))
  }

  function BudgetsOf(cfg: Config, org: nat): seq<Budget> {
    if org in cfg.budgets then cfg.budgets[org] else []
  }

  // As the translation writes them.
  predicate OneColumned(budgets: seq<Budget>) {
    forall b | b in budgets :: OneColumn(b, Merchant) || OneColumn(b, Mcc) || OneColumn(b, Category)
  }

  function ColumnOf(b: Budget): (d: Dim)
    requires OneColumn(b, Merchant) || OneColumn(b, Mcc) || OneColumn(b, Category)
    ensures OneColumn(b, d)
  {
    if OneColumn(b, Merchant) then Merchant else if OneColumn(b, Mcc) then Mcc else Category
  }

  lemma RankOfColumn(e: Scope, b: Budget, d: Dim)
    requires OneColumn(b, d)
    ensures Rank(e, b.scope) == if Hits(e, b.scope, d) then DimRank(d) else 0
    ensures InScope(e, b.scope) <==> e.At(d) == b.scope.At(d)
    ensures InScope(e, b.scope) ==> Hits(e, b.scope, d)
  {
  }

  function WithColumn(e: Scope, d: Dim, v: Option<string>): Scope {
    match d
    case Merchant => e.(merchant := v)
    case Mcc => e.(mcc := v)
    case Category => e.(category := v)
  }

  // An empty merchant or mcc column of a budget is like none at all.
  lemma EmptyColumnIgnored(e: Scope, b: Scope, d: Dim)
    requires !d.Category?
    ensures !Hits(e, WithColumn(b, Category, Some("")), Category)
    ensures Rank(e, WithColumn(b, d, Some(""))) == Rank(e, WithColumn(b, d, None))
    ensures InScope(e, WithColumn(b, d, Some(""))) <==> InScope(e, WithColumn(b, d, None))
  {
  }

  // What the matcher takes to be the same is judged the same.
  predicate SameNorm(a: Option<string>, b: Option<string>) {
    a.Some? && b.Some? && Norm(a.value) == Norm(b.value)
  }

  lemma SameMatches(e: Scope, d: Dim, v: Option<string>, on: Option<Dim>, value: string)
    requires SameNorm(e.At(d), v)
    ensures RuleMatches(WithColumn(e, d, v), on, value) <==> RuleMatches(e, on, value)
  {
  }

  lemma {:induction false} SamePick(e: Scope, d: Dim, v: Option<string>, budgets: seq<Budget>)
    requires SameNorm(e.At(d), v)
    ensures Pick(WithColumn(e, d, v), budgets) == Pick(e, budgets)
  {
    if budgets != [] {
      var b := budgets[|budgets| - 1];
      SamePick(e, d, v, budgets[..|budgets| - 1]);
      SameRank(e, d, v, b.scope);
      var prior := Pick(e, budgets[..|budgets| - 1]);
      if prior.Some? {
        SameRank(e, d, v, prior.value.scope);
      }
    }
  }

  lemma SameRank(e: Scope, d: Dim, v: Option<string>, b: Scope)
    requires SameNorm(e.At(d), v)
    ensures Rank(WithColumn(e, d, v), b) == Rank(e, b)
  {
    forall x: Dim ensures Hits(WithColumn(e, d, v), b, x) <==> Hits(e, b, x) {
      if Present(b.At(x)) {
        SameMatches(e, d, v, Some(x), b.At(x).value);
      }
    }
  }

  lemma SameJudgement(cfg: Config, org: nat, e: Scope, d: Dim, v: Option<string>)
    requires SameNorm(e.At(d), v)
    ensures cfg.JudgeFor(org, WithColumn(e, d, v)) == cfg.JudgeFor(org, e)
  {
    var rules := if org in cfg.rules then cfg.rules[org] else [];
    forall r | r in rules ensures RuleMatches(WithColumn(e, d, v), r.on, r.value) <==> RuleMatches(e, r.on, r.value) {
      SameMatches(e, d, v, r.on, r.value);
    }
    SamePick(e, d, v, BudgetsOf(cfg, org));
  }

  lemma JudgeIsPick(cfg: Config, org: nat, e: Scope, b: Budget)
    requires cfg.JudgeFor(org, e) == Accumulating(b)
    ensures Pick(e, BudgetsOf(cfg, org)) == Some(b)
  {
  }

  lemma OneWinner(own: Scope, e: Scope, budgets: seq<Budget>, k: nat, i: nat)
    requires k < |budgets| && i < |budgets| && IsFirstBest(own, budgets, k) && IsFirstBest(e, budgets, i)
    requires Rank(own, budgets[i].scope) == Rank(own, budgets[k].scope) &&
      Rank(e, budgets[i].scope) == Rank(e, budgets[k].scope)
    ensures i == k
  {
  }

  lemma PickPosition(cfg: Config, org: nat, e: Scope, b: Budget) returns (k: nat)
    requires cfg.JudgeFor(org, e) == Accumulating(b)
    ensures var budgets := BudgetsOf(cfg, org);
      k < |budgets| && IsFirstBest(e, budgets, k) && budgets[k] == b && b in budgets
  {
    var budgets := BudgetsOf(cfg, org);
    JudgeIsPick(cfg, org, e, b);
    PickMeaning(e, budgets);
    k :| k < |budgets| && IsFirstBest(e, budgets, k) && budgets[k] == b;
  }

  // Of two one-column budgets, the one that judges a charge in the other's scope is on a higher column, and does not
  // count the charges that the other judges.
  lemma ForeignIsHigher(cfg: Config, org: nat, b: Budget, own: Scope, other: Budget, e: Scope) returns (d: Dim, x: Dim)
    requires OneColumned(BudgetsOf(cfg, org)) && b != other
    requires InScope(own, b.scope) && cfg.JudgeFor(org, own) == Accumulating(b)
    requires InScope(e, b.scope) && cfg.JudgeFor(org, e) == Accumulating(other)
    ensures OneColumn(b, d) && OneColumn(other, x) && d != x && Hits(e, other.scope, x) && !InScope(own, other.scope)
  {
    var budgets := BudgetsOf(cfg, org);
    var k := PickPosition(cfg, org, own, b);
    var i := PickPosition(cfg, org, e, other);
    d, x := ColumnOf(b), ColumnOf(other);
    RankOfColumn(own, b, d);
    RankOfColumn(e, b, d);
    RankOfColumn(own, other, x);
    RankOfColumn(e, other, x);
    if d == x {
      OneWinner(own, e, budgets, k, i);
    }
  }

  // An approved charge of the organization's card, served at t under the n-th id.
  function Approval(card: string, org: nat, n: nat, e: Scope, amount: int, t: Moment): Row {
    Row(org, Charge(seq(n, i => 'a'), Some(card), amount, e), Verdict(true, WithinBudget), t, t)
  }

  lemma CountsAt(card: string, org: nat, n: nat, e: Scope, amount: int, t: Moment, b: Budget)
    ensures Counted(Approval(card, org, n, e, amount, t), org, b, WindowStart(b.interval, t)) <==> InScope(e, b.scope)
  {
    WindowOpensBefore(b.interval, t);
  }

  lemma TimelyAt(rows: seq<Row>, b: Budget, t: Moment)
    requires forall r | r in rows :: r.decidedAt == t
    ensures Timely(rows, b, WindowStart(b.interval, t))
  {
  }

  // The organization has the card, and the budget judges a charge that it counts.
  predicate Governs(cfg: Config, card: string, org: nat, b: Budget, own: Scope) {
    && card in cfg.cards && cfg.cards[card] == org && OneColumned(BudgetsOf(cfg, org))
    && InScope(own, b.scope) && cfg.JudgeFor(org, own) == Accumulating(b)
  }

  // What the budget's query reports after some rows.
  function Reported(rows: seq<Row>, org: nat, b: Budget, t: Moment): int {
    Spent(rows, org, b, WindowStart(b.interval, t))
  }

  lemma ReportedMore(card: string, rows: seq<Row>, n: nat, e: Scope, amount: int, org: nat, b: Budget, t: Moment)
    ensures Reported(rows + [Approval(card, org, n, e, amount, t)], org, b, t)
         == Reported(rows, org, b, t) + if InScope(e, b.scope) then amount else 0
  {
    SpentMore(rows, Approval(card, org, n, e, amount, t), org, b, WindowStart(b.interval, t));
    CountsAt(card, org, n, e, amount, t, b);
  }

  // A serial history at t whose ids are among the first n.
  ghost predicate History(cfg: Config, rows: seq<Row>, n: nat, t: Moment) {
    SerialTable(cfg, rows) && forall r | r in rows :: r.decidedAt == t && |r.charge.authId| < n
  }

  // A charge is approved that fits on top of what its budget is reported to have spent.
  lemma ApprovedMore(cfg: Config, card: string, rows: seq<Row>, n: nat, e: Scope, amount: int, org: nat, t: Moment)
      returns (more: seq<Row>)
    requires History(cfg, rows, n, t) && card in cfg.cards && cfg.cards[card] == org
    requires match cfg.JudgeFor(org, e)
      case Refused(_) => false
      case PerCharge(x) => amount <= x.limit
      case Accumulating(x) => Reported(rows, org, x, t) + amount <= x.limit
    ensures History(cfg, more, n + 1, t) && more == rows + [Approval(card, org, n, e, amount, t)]
  {
    more := rows + [Approval(card, org, n, e, amount, t)];
    assert |Approval(card, org, n, e, amount, t).charge.authId| == n;
    SerialMore(cfg, rows, Approval(card, org, n, e, amount, t));
  }

  lemma EmptyHistory(cfg: Config, org: nat, b: Budget, t: Moment)
    ensures History(cfg, [], 0, t) && Reported([], org, b, t) == 0
  {
  }

  function Abs(x: int): nat {
    if x < 0 then -x else x
  }

  // A negative charge under the other budget makes the given room in both.
  lemma MakeRoom(cfg: Config, card: string, org: nat, b: Budget, other: Budget, e: Scope, room: int, t: Moment)
      returns (rows: seq<Row>)
    requires card in cfg.cards && cfg.cards[card] == org && cfg.JudgeFor(org, e) == Accumulating(other) &&
      -room <= other.limit
    requires InScope(e, b.scope) && InScope(e, other.scope)
    ensures History(cfg, rows, 1, t) && Reported(rows, org, b, t) == Reported(rows, org, other, t) == -room
  {
    EmptyHistory(cfg, org, b, t);
    EmptyHistory(cfg, org, other, t);
    ReportedMore(card, [], 0, e, -room, org, b, t);
    ReportedMore(card, [], 0, e, -room, org, other, t);
    rows := ApprovedMore(cfg, card, [], 0, e, -room, org, t);
  }

  // Both budgets are totalled: after a negative charge under the other one, each uses the room for itself.
  lemma BothUseTheRoom(cfg: Config, card: string, org: nat, b: Budget, own: Scope, other: Budget, e: Scope, t: Moment)
      returns (rows: seq<Row>)
    requires Governs(cfg, card, org, b, own) && cfg.JudgeFor(org, e) == Accumulating(other)
    requires InScope(e, b.scope) && InScope(e, other.scope) && !InScope(own, other.scope)
    ensures History(cfg, rows, 3, t) && Reported(rows, org, b, t) > Max(0, b.limit)
  {
    var room := Abs(b.limit) + Abs(other.limit) + 1;
    var one := MakeRoom(cfg, card, org, b, other, e, room, t);
    ReportedMore(card, one, 1, own, room + b.limit, org, b, t);
    ReportedMore(card, one, 1, own, room + b.limit, org, other, t);
    var two := ApprovedMore(cfg, card, one, 1, own, room + b.limit, org, t);
    ReportedMore(card, two, 2, e, room + other.limit, org, b, t);
    rows := ApprovedMore(cfg, card, two, 2, e, room + other.limit, org, t);
  }

  // The other one judges charge by charge: it lets one through when the budget is already full.
  lemma OneMoreLetThrough(cfg: Config, card: string, org: nat, b: Budget, own: Scope, other: Budget, e: Scope,
      t: Moment)
      returns (rows: seq<Row>)
    requires Governs(cfg, card, org, b, own) && cfg.JudgeFor(org, e) == PerCharge(other) && other.limit > 0
    requires InScope(e, b.scope)
    ensures History(cfg, rows, 2, t) && Reported(rows, org, b, t) > Max(0, b.limit)
  {
    EmptyHistory(cfg, org, b, t);
    rows := [];
    if b.limit >= 0 {
      ReportedMore(card, [], 0, own, b.limit, org, b, t);
      rows := ApprovedMore(cfg, card, [], 0, own, b.limit, org, t);
    }
    ReportedMore(card, rows, 1, e, 1, org, b, t);
    rows := ApprovedMore(cfg, card, rows, 1, e, 1, org, t);
  }

  // A charge of the scope that another budget judges can be respelled so that that budget counts it.
  lemma SpelledOut(cfg: Config, card: string, org: nat, b: Budget, own: Scope, other: Budget, e: Scope)
      returns (e': Scope)
    requires Governs(cfg, card, org, b, own) && b != other
    requires InScope(e, b.scope) && cfg.JudgeFor(org, e) == Accumulating(other)
    ensures InScope(e', b.scope) && InScope(e', other.scope) && cfg.JudgeFor(org, e') == Accumulating(other)
    ensures !InScope(own, other.scope)
  {
    var d, x := ForeignIsHigher(cfg, org, b, own, other, e);
    e' := WithColumn(e, x, other.scope.At(x));
    SameJudgement(cfg, org, e, x, other.scope.At(x));
    RankOfColumn(e, b, d);
    RankOfColumn(e', b, d);
    RankOfColumn(e', other, x);
    assert e'.At(d) == e.At(d) && e'.At(x) == other.scope.At(x);
  }

  lemma SharedScopeExceeds(cfg: Config, card: string, org: nat, b: Budget, own: Scope, e: Scope, t: Moment)
      returns (labels: seq<Label>)
    requires Governs(cfg, card, org, b, own) && InScope(e, b.scope) && !Harmless(cfg.JudgeFor(org, e), b)
    ensures var rows := Run(cfg, START, labels).rows;
      Timely(rows, b, WindowStart(b.interval, t)) && Reported(rows, org, b, t) > Max(0, b.limit)
  {
    var rows;
    var j := cfg.JudgeFor(org, e);
    if j.PerCharge? {
      rows := OneMoreLetThrough(cfg, card, org, b, own, j.budget, e, t);
    } else {
      var e' := SpelledOut(cfg, card, org, b, own, j.budget, e);
      rows := BothUseTheRoom(cfg, card, org, b, own, j.budget, e', t);
    }
    labels := SerialIsReachable(cfg, rows);
    TimelyAt(rows, b, t);
  }

  // The total reported for a budget is within its limit in every run, whatever the sign of the amounts, if and only if
  // every scope that it counts is refused, judged by that budget, or judged charge by charge with no room.
  lemma ScopeCapExactly(cfg: Config, card: string, org: nat, b: Budget, own: Scope, t: Moment)
    requires Governs(cfg, card, org, b, own)
    ensures (forall labels | Timely(Run(cfg, START, labels).rows, b, WindowStart(b.interval, t)) ::
               Reported(Run(cfg, START, labels).rows, org, b, t) <= Max(0, b.limit))
       <==> OwnsScope(cfg, org, b)
  {
    if OwnsScope(cfg, org, b) {
      forall labels | Timely(Run(cfg, START, labels).rows, b, WindowStart(b.interval, t))
        ensures Reported(Run(cfg, START, labels).rows, org, b, t) <= Max(0, b.limit)
      {
        OwnedScopeCapped(cfg, labels, org, b, WindowStart(b.interval, t));
      }
    } else {
      var e: Scope :| InScope(e, b.scope) && !Harmless(cfg.JudgeFor(org, e), b);
      var labels := SharedScopeExceeds(cfg, card, org, b, own, e, t);
      assert Timely(Run(cfg, START, labels).rows, b, WindowStart(b.interval, t));
    }
  }

  // A merchant budget that clashes with no other is the sole judge of its scope.
  lemma MerchantBudgetOwns(cfg: Config, org: nat, b: Budget)
    requires b in BudgetsOf(cfg, org) && OneColumn(b, Merchant) && ScopesDistinct(BudgetsOf(cfg, org)) &&
      !b.interval.PerAuthorization?
    ensures SoleJudge(cfg, org, b) && OwnsScope(cfg, org, b)
  {
    var budgets := BudgetsOf(cfg, org);
    forall e: Scope | InScope(e, b.scope)
      ensures cfg.JudgeFor(org, e).Refused? || cfg.JudgeFor(org, e) == Accumulating(b)
    {
      RankOfColumn(e, b, Merchant);
      PickMeaning(e, budgets);
      if Pick(e, budgets).Some? && Pick(e, budgets).value != b {
        var k: nat :| k < |budgets| && IsFirstBest(e, budgets, k) && budgets[k] == Pick(e, budgets).value;
        assert budgets[k] in budgets;
        EqualRanksClash(e, budgets[k], b);
      }
    }
  }
}
