/**
 Concrete charges that pass a budget's limit: each shows that one hypothesis of the cap cannot be dropped.
 */
module SpendCapLimits {
  import opened Wrappers
  import opened Text
  import opened Calendar
  import opened SpendRules
  import opened SpendLedger
  import opened SpendCap
  import opened SpendCapExact
  import opened SpendReach
  import opened SpendScope

  function OneCard(budgets: seq<Budget>): Config {
    Config(map["card" := 0], map[], map[0 := budgets])
  }

  const NOON := DateTime(2024, 5, 31, DAY / 2)
  const BEFORE_MIDNIGHT := DateTime(2024, 5, 31, DAY - 1)
  const AFTER_MIDNIGHT := DateTime(2024, 6, 1, 0)

  lemma NormOfLetter(c: char)
    requires !IsSpace(c)
    ensures Norm([c]) == Lower([c])
  {
  }

  lemma OneBudgetJudges(b: Budget, e: Scope)
    requires Rank(e, b.scope) > 0 && !b.interval.PerAuthorization?
    ensures OneCard([b]).JudgeFor(0, e) == Accumulating(b)
  {
    PickMeaning(e, [b]);
    assert b in [b];
  }

  // A budget written for "A" governs the charges of "a" but never counts them.
  lemma SpellingMatters()
    ensures var b, sh := Budget(7, Only(Merchant, Some("A")), 100, Monthly),
      Shape("card", Only(Merchant, Some("a")), NOON, NOON);
      exists labels :: (forall l | l in labels :: OfShape(sh, l))
        && Charged(OneCard([b]), Run(OneCard([b]), START, labels).rows, 0, b, WindowStart(Monthly, NOON), false) > 100
  {
    var b, sh := Budget(7, Only(Merchant, Some("A")), 100, Monthly),
      Shape("card", Only(Merchant, Some("a")), NOON, NOON);
    NormOfLetter('A');
    NormOfLetter('a');
    assert Hits(sh.scope, b.scope, Merchant);
    OneBudgetJudges(b, sh.scope);
    ShapeCapExactly(OneCard([b]), sh, b);
  }

  // A budget that names two columns governs the charges of the second but counts only those of the first.
  lemma ColumnsMatter()
    ensures var b, sh := Budget(7, Scope(Some("a"), Some("5"), None), 100, Monthly),
      Shape("card", Only(Mcc, Some("5")), NOON, NOON);
      exists labels :: (forall l | l in labels :: OfShape(sh, l))
        && Charged(OneCard([b]), Run(OneCard([b]), START, labels).rows, 0, b, WindowStart(Monthly, NOON), false) > 100
  {
    var b, sh := Budget(7, Scope(Some("a"), Some("5"), None), 100, Monthly),
      Shape("card", Only(Mcc, Some("5")), NOON, NOON);
    assert Hits(sh.scope, b.scope, Mcc);
    OneBudgetJudges(b, sh.scope);
    ShapeCapExactly(OneCard([b]), sh, b);
  }

  // A transaction opened before midnight and judged after it is stored under the day that has passed.
  lemma MidnightMatters()
    ensures var b, sh := Budget(7, Only(Merchant, Some("a")), 100, Daily),
      Shape("card", Only(Merchant, Some("a")), BEFORE_MIDNIGHT, AFTER_MIDNIGHT);
      exists labels :: (forall l | l in labels :: OfShape(sh, l))
        && Charged(OneCard([b]), Run(OneCard([b]), START, labels).rows, 0, b, WindowStart(Daily, AFTER_MIDNIGHT),
          false) > 100
  {
    var b, sh := Budget(7, Only(Merchant, Some("a")), 100, Daily),
      Shape("card", Only(Merchant, Some("a")), BEFORE_MIDNIGHT, AFTER_MIDNIGHT);
    assert Hits(sh.scope, b.scope, Merchant);
    OneBudgetJudges(b, sh.scope);
    MonthsAscend(2024, 5, 2024, 6);
    ShapeCapExactly(OneCard([b]), sh, b);
  }

  function NoonRow(id: string, e: Scope, amount: int): Row {
    Row(0, Charge(id, Some("card"), amount, e), Verdict(true, WithinBudget), NOON, NOON)
  }

  lemma RefundThenCharge(cfg: Config, m: Budget, c: Budget, both: Scope, plain: Scope) returns (labels: seq<Label>)
    requires "card" in cfg.cards && cfg.cards["card"] == 0 && m.limit == c.limit == 10 &&
      m.interval == c.interval == AllTime
    requires cfg.JudgeFor(0, both) == Accumulating(m) && cfg.JudgeFor(0, plain) == Accumulating(c) && m != c
    requires InScope(both, c.scope)
    ensures Run(cfg, START, labels).rows == [NoonRow("x", both, -100), NoonRow("y", plain, 100)]
  {
    var refund, charge := NoonRow("x", both, -100), NoonRow("y", plain, 100);
    assert Spent([], 0, m, None) == 0 && Spent([], 0, c, None) == 0;
    SerialMore(cfg, [], refund);
    SpentMore([], refund, 0, c, None);
    assert [] + [refund] == [refund];
    SerialMore(cfg, [refund], charge);
    labels := SerialIsReachable(cfg, [refund] + [charge]);
  }

  lemma ChargedAlone(cfg: Config, c: Budget, other: Row, own: Row)
    requires !Governed(cfg, other, 0, c) && Governed(cfg, own, 0, c) && c.interval.AllTime?
    ensures Charged(cfg, [other, own], 0, c, None, false) == own.charge.amount
  {
    var rows := [other, own];
    assert rows[..|rows| - 1] == [other] && [other][..0] == [];
    assert Charged(cfg, [other], 0, c, None, false) == 0;
  }

  // A negative amount approved under an overlapping budget makes room that was never there.
  lemma NegativesMatter()
    ensures var m, c := Budget(1, Only(Merchant, Some("a")), 10, AllTime),
      Budget(2, Only(Category, Some("f")), 10, AllTime);
      exists labels :: Charged(OneCard([m, c]), Run(OneCard([m, c]), START, labels).rows, 0, c, None, false) == 100
  {
    var m, c := Budget(1, Only(Merchant, Some("a")), 10, AllTime), Budget(2, Only(Category, Some("f")), 10, AllTime);
    var both, plain := Scope(Some("a"), None, Some("f")), Only(Category, Some("f"));
    TwoBudgetsJudge(m, c, both, plain);
    var labels := RefundThenCharge(OneCard([m, c]), m, c, both, plain);
    ChargedAlone(OneCard([m, c]), c, NoonRow("x", both, -100), NoonRow("y", plain, 100));
  }

  lemma TwoBudgetsJudge(m: Budget, c: Budget, both: Scope, plain: Scope)
    requires m.scope == Only(Merchant, Some("a")) && c.scope == Only(Category, Some("f"))
    requires m.interval.AllTime? && c.interval.AllTime?
    requires both == Scope(Some("a"), None, Some("f")) && plain == Only(Category, Some("f"))
    ensures OneCard([m, c]).JudgeFor(0, both) == Accumulating(m)
    ensures OneCard([m, c]).JudgeFor(0, plain) == Accumulating(c)
  {
    PickMeaning(both, [m, c]);
    PickMeaning(plain, [m, c]);
    assert Hits(both, m.scope, Merchant) && Hits(plain, c.scope, Category);
    assert [m, c][0] == m && [m, c][1] == c;
    assert m in [m, c] && c in [m, c];
  }
}
