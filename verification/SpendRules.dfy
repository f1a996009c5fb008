/**
 The decision logic of apps/api/captureos/services/spend.py: which rules and which budget govern a
 charge, and the verdict. Rules and budgets arrive from queries without an ORDER BY, so a list order
 is arbitrary; the lemmas here say exactly when it does not matter.
 */
module SpendRules {
  import opened Lists
  import opened Wrappers
  import opened Text
  import opened Calendar

  datatype Dim = Merchant | Mcc | Category

  // The three columns a charge carries and a budget constrains.
  datatype Scope = Scope(merchant: Option<string>, mcc: Option<string>, category: Option<string>) {
    function At(d: Dim): Option<string> {
      match d
      case Merchant => merchant
      case Mcc => mcc
      case Category => category
    }
  }

  datatype Charge = Charge(authId: string, cardId: Option<string>, amount: int, scope: Scope)

  datatype Kind = Allow | Deny

  // A match type outside the three known ones is None and matches nothing.
  datatype Rule = Rule(kind: Kind, on: Option<Dim>, value: string)

  datatype Budget = Budget(id: nat, scope: Scope, limit: int, interval: Interval)

  datatype Reason = MerchantDenied | NotAllowlisted | NoBudgetRule | WithinBudget | OverBudget | UnknownCard

  datatype Verdict = Verdict(approved: bool, reason: Reason)

  // Scanning left to right and moving only to a strictly higher rank; rank 0 never wins.
  function FirstBest<T>(rank: T -> nat, s: seq<T>): Option<T> {
    if s == [] then None
    else
      var prior := FirstBest(rank, s[..|s| - 1]);
      var x := s[|s| - 1];
      if rank(x) > RankIn(rank, prior) then Some(x) else prior
  }

  function RankIn<T>(rank: T -> nat, best: Option<T>): nat {
    if best.Some? then rank(best.value) else 0
  }

  lemma {:induction false} FindFirstBest<T>(rank: T -> nat, s: seq<T>) returns (k: nat)
    ensures FirstBest(rank, s).None? ==> forall i | 0 <= i < |s| :: rank(s[i]) == 0
    ensures FirstBest(rank, s).Some? ==>
              && k < |s| && s[k] == FirstBest(rank, s).value && rank(s[k]) > 0
              && (forall i | 0 <= i < |s| :: rank(s[i]) <= rank(s[k]))
              && (forall i | 0 <= i < k :: rank(s[i]) < rank(s[k]))
  {
    k := 0;
    if s != [] {
      var n := |s| - 1;
      k := FindFirstBest(rank, s[..n]);
      if rank(s[n]) > RankIn(rank, FirstBest(rank, s[..n])) {
        k := n;
      }
    }
  }

  predicate RuleMatches(e: Scope, on: Option<Dim>, value: string) {
    on.Some? && e.At(on.value).Some? && Norm(e.At(on.value).value) == Norm(value)
  }

  predicate Present(v: Option<string>) {
    v.Some? && v.value != ""
  }

  predicate Hits(e: Scope, b: Scope, d: Dim) {
    Present(b.At(d)) && RuleMatches(e, Some(d), b.At(d).value)
  }

  function DimRank(d: Dim): nat {
    match d
    case Merchant => 3
    case Mcc => 2
    case Category => 1
  }

  // How specifically a budget matches a charge; 0 when it does not.
  function Rank(e: Scope, b: Scope): nat {
    if Hits(e, b, Merchant) then 3
    else if Hits(e, b, Mcc) then 2
    else if Hits(e, b, Category) then 1
    else 0
  }

  function Ranker(e: Scope): Budget -> nat {
    (b: Budget) => Rank(e, b.scope)
  }

  function Pick(e: Scope, budgets: seq<Budget>): Option<Budget> {
    FirstBest(Ranker(e), budgets)
  }

  // The nested loops that keep `best` and `best_rank`, over the match types in their written order.
  method PickBudget(e: Scope, budgets: seq<Budget>) returns (best: Option<Budget>)
    ensures best == Pick(e, budgets)
  {
    best := None;
    var bestRank: int := -1;
    for i := 0 to |budgets|
      invariant best == Pick(e, budgets[..i])
      invariant bestRank == if best.Some? then Ranker(e)(best.value) else -1
      invariant best.Some? ==> bestRank > 0
    {
      var b := budgets[i];
      assert budgets[..i + 1][..i] == budgets[..i];
      var dims := [Merchant, Mcc, Category];
      ghost var hits := 0;  // the rank of the first match type that hit, if any did
      for k := 0 to 3
        invariant hits == (if k > 0 && Hits(e, b.scope, Merchant) then 3
                           else if k > 1 && Hits(e, b.scope, Mcc) then 2
                           else if k > 2 && Hits(e, b.scope, Category) then 1 else 0)
        invariant best == (if hits > RankIn(Ranker(e), Pick(e, budgets[..i])) then Some(b) else Pick(e, budgets[..i]))
        invariant bestRank == if best.None? then -1 else Max(hits, RankIn(Ranker(e), Pick(e, budgets[..i])))
      {
        var d := dims[k];
        if Hits(e, b.scope, d) && DimRank(d) > bestRank {
          best, bestRank := Some(b), DimRank(d);
        }
        hits := if hits == 0 && Hits(e, b.scope, d) then DimRank(d) else hits;
      }
      assert hits == Rank(e, b.scope) == Ranker(e)(b);
    }
    assert budgets[..|budgets|] == budgets;
  }

  // The winner is the first budget of the highest rank, and there is one as soon as any matches.
  lemma PickMeaning(e: Scope, budgets: seq<Budget>)
    ensures Pick(e, budgets).None? <==> forall b | b in budgets :: Rank(e, b.scope) == 0
    ensures Pick(e, budgets).Some? ==>
              exists k :: 0 <= k < |budgets| && IsFirstBest(e, budgets, k) && budgets[k] == Pick(e, budgets).value
  {
    var k := FindFirstBest(Ranker(e), budgets);
    assert forall b: Budget :: Ranker(e)(b) == Rank(e, b.scope);
    if Pick(e, budgets).Some? {
      assert IsFirstBest(e, budgets, k);
      assert budgets[k] in budgets;
    }
  }

  predicate IsFirstBest(e: Scope, budgets: seq<Budget>, k: nat)
    requires k < |budgets|
  {
    && Rank(e, budgets[k].scope) > 0
    && (forall i | 0 <= i < |budgets| :: Rank(e, budgets[i].scope) <= Rank(e, budgets[k].scope))
    && (forall i | 0 <= i < k :: Rank(e, budgets[i].scope) < Rank(e, budgets[k].scope))
  }

  // Merchant counts for more than mcc, and mcc for more than category.
  predicate MoreSpecific(e: Scope, a: Scope, b: Scope) {
    || (Hits(e, a, Merchant) && !Hits(e, b, Merchant))
    || (Hits(e, a, Mcc) && !Hits(e, b, Merchant) && !Hits(e, b, Mcc))
    || (Hits(e, a, Category) && !Hits(e, b, Merchant) && !Hits(e, b, Mcc) && !Hits(e, b, Category))
  }

  lemma RankIsSpecificity(e: Scope, a: Scope, b: Scope)
    ensures MoreSpecific(e, a, b) <==> Rank(e, a) > Rank(e, b)
    ensures Rank(e, a) == 0 <==> !Hits(e, a, Merchant) && !Hits(e, a, Mcc) && !Hits(e, a, Category)
  {
  }

  // No budget is more specific than the one picked, and it is more specific than all before it.
  lemma MostSpecificPicked(e: Scope, budgets: seq<Budget>)
    ensures Pick(e, budgets).None? <==> forall b, d | b in budgets :: !Hits(e, b.scope, d)
    ensures Pick(e, budgets).Some? ==> exists k | 0 <= k < |budgets| ::
      && Pick(e, budgets).value == budgets[k]
      && (forall i | 0 <= i < |budgets| :: !MoreSpecific(e, budgets[i].scope, budgets[k].scope))
      && (forall i | 0 <= i < k :: MoreSpecific(e, budgets[k].scope, budgets[i].scope))
  {
    PickMeaning(e, budgets);
    forall b: Budget ensures Rank(e, b.scope) == 0 <==> forall d :: !Hits(e, b.scope, d) {
      RankIsSpecificity(e, b.scope, b.scope);
    }
    if Pick(e, budgets).Some? {
      var k: nat :| k < |budgets| && IsFirstBest(e, budgets, k) && budgets[k] == Pick(e, budgets).value;
      forall i | 0 <= i < |budgets| ensures !MoreSpecific(e, budgets[i].scope, budgets[k].scope) {
        RankIsSpecificity(e, budgets[i].scope, budgets[k].scope);
      }
      forall i | 0 <= i < k ensures MoreSpecific(e, budgets[k].scope, budgets[i].scope) {
        RankIsSpecificity(e, budgets[k].scope, budgets[i].scope);
      }
    }
  }

  // Two different budgets written for what the matcher takes to be the same merchant, mcc or category.
  predicate Clash(a: Budget, b: Budget) {
    a != b && exists d ::
      Present(a.scope.At(d)) && Present(b.scope.At(d)) && Norm(a.scope.At(d).value) == Norm(b.scope.At(d).value)
  }

  predicate ScopesDistinct(budgets: seq<Budget>) {
    forall a, b | a in budgets && b in budgets :: !Clash(a, b)
  }

  ghost predicate PickOrderFree(budgets: seq<Budget>) {
    forall e, other: seq<Budget> | multiset(other) == multiset(budgets) :: Pick(e, other) == Pick(e, budgets)
  }

  function RankDim(e: Scope, b: Scope): Dim {
    if Hits(e, b, Merchant) then Merchant else if Hits(e, b, Mcc) then Mcc else Category
  }

  lemma EqualRanksClash(e: Scope, a: Budget, b: Budget)
    requires a != b && Rank(e, a.scope) == Rank(e, b.scope) > 0
    ensures Clash(a, b)
  {
    var d := RankDim(e, a.scope);
    assert Hits(e, a.scope, d) && Hits(e, b.scope, d);
  }

  lemma DistinctScopesPickAlike(e: Scope, budgets: seq<Budget>, other: seq<Budget>)
    requires ScopesDistinct(budgets) && multiset(other) == multiset(budgets)
    ensures Pick(e, other) == Pick(e, budgets)
  {
    SameMembers(budgets, other);
    PickMeaning(e, budgets);
    PickMeaning(e, other);
    if Pick(e, budgets).Some? && Pick(e, other).Some? {
      var i :| 0 <= i < |budgets| && IsFirstBest(e, budgets, i) && budgets[i] == Pick(e, budgets).value;
      var j :| 0 <= j < |other| && IsFirstBest(e, other, j) && other[j] == Pick(e, other).value;
      assert other[j] in budgets && budgets[i] in other;
      if budgets[i] != other[j] {
        EqualRanksClash(e, budgets[i], other[j]);
      }
    }
  }

  function Only(d: Dim, v: Option<string>): Scope {
    Scope(if d.Merchant? then v else None, if d.Mcc? then v else None, if d.Category? then v else None)
  }

  // A charge that names only the shared value takes whichever of the two budgets comes first.
  lemma ClashDecidesByOrder(budgets: seq<Budget>, a: Budget, b: Budget)
    requires a in budgets && b in budgets && Clash(a, b)
    ensures !PickOrderFree(budgets)
  {
    var d :| Present(a.scope.At(d)) && Present(b.scope.At(d)) && Norm(a.scope.At(d).value) == Norm(b.scope.At(d).value);
    var e := Only(d, a.scope.At(d));
    var withA := FirstOfTop(e, budgets, a, d);
    var withB := FirstOfTop(e, budgets, b, d);
    assert Pick(e, withA) != Pick(e, withB);
  }

  lemma FirstOfTop(e: Scope, budgets: seq<Budget>, a: Budget, d: Dim) returns (moved: seq<Budget>)
    requires a in budgets && Present(a.scope.At(d)) && Hits(e, a.scope, d)
    requires exists v :: e == Only(d, v)
    ensures multiset(moved) == multiset(budgets) && Pick(e, moved) == Some(a)
  {
    moved := MoveToFront(budgets, a);
    HeadPicked(e, moved, d);
  }

  lemma HeadPicked(e: Scope, list: seq<Budget>, d: Dim)
    requires list != [] && Present(list[0].scope.At(d)) && Hits(e, list[0].scope, d)
    requires exists v :: e == Only(d, v)
    ensures Pick(e, list) == Some(list[0])
  {
    PickMeaning(e, list);
    assert Rank(e, list[0].scope) == DimRank(d);
    forall b: Budget ensures Rank(e, b.scope) <= DimRank(d) {}
    assert list[0] in list;
    var k :| 0 <= k < |list| && IsFirstBest(e, list, k) && list[k] == Pick(e, list).value;
    assert k == 0;
  }

  // The verdict's independence of row order, characterised.
  lemma PickOrderFreeExactly(budgets: seq<Budget>)
    ensures PickOrderFree(budgets) <==> ScopesDistinct(budgets)
  {
    if ScopesDistinct(budgets) {
      forall e, other: seq<Budget> | multiset(other) == multiset(budgets)
        ensures Pick(e, other) == Pick(e, budgets)
      {
        DistinctScopesPickAlike(e, budgets, other);
      }
    } else {
      var a, b :| a in budgets && b in budgets && Clash(a, b);
      ClashDecidesByOrder(budgets, a, b);
    }
  }

  // Where the rules and budgets leave a charge before any spend is totalled.
  datatype Judgement = Refused(reason: Reason) | PerCharge(budget: Budget) | Accumulating(budget: Budget)

  predicate RuledOn(e: Scope, rules: seq<Rule>, kind: Kind) {
    exists r | r in rules :: r.kind == kind && RuleMatches(e, r.on, r.value)
  }

  predicate Gated(e: Scope, rules: seq<Rule>) {
    (exists r | r in rules :: r.kind == Allow) && !RuledOn(e, rules, Allow)
  }

  function Judge(e: Scope, rules: seq<Rule>, budgets: seq<Budget>): Judgement {
    if RuledOn(e, rules, Deny) then Refused(MerchantDenied)
    else if Gated(e, rules) then Refused(NotAllowlisted)
    else match Pick(e, budgets)
      case None => Refused(NoBudgetRule)
      case Some(b) => if b.interval.PerAuthorization? then PerCharge(b) else Accumulating(b)
  }

  function Settle(j: Judgement, amount: int, spent: int): Verdict {
    match j
    case Refused(reason) => Verdict(false, reason)
    case PerCharge(b) => if amount <= b.limit then Verdict(true, WithinBudget) else Verdict(false, OverBudget)
    case Accumulating(b) =>
      if spent + amount <= b.limit then Verdict(true, WithinBudget) else Verdict(false, OverBudget)
  }

  // The rule scan and the allow-list gate as they are looped over, then the budget search.
  method JudgeCharge(e: Scope, rules: seq<Rule>, budgets: seq<Budget>) returns (j: Judgement)
    ensures j == Judge(e, rules, budgets)
  {
    for i := 0 to |rules|
      invariant forall k | 0 <= k < i :: !(rules[k].kind == Deny && RuleMatches(e, rules[k].on, rules[k].value))
    {
      if rules[i].kind == Deny && RuleMatches(e, rules[i].on, rules[i].value) {
        return Refused(MerchantDenied);
      }
    }
    var anyAllow, allowed := false, false;
    for i := 0 to |rules|
      invariant anyAllow == exists k :: 0 <= k < i && rules[k].kind == Allow
      invariant allowed == exists k ::
        0 <= k < i && rules[k].kind == Allow && RuleMatches(e, rules[k].on, rules[k].value)
    {
      if rules[i].kind == Allow {
        anyAllow := true;
        allowed := allowed || RuleMatches(e, rules[i].on, rules[i].value);
      }
    }
    if anyAllow && !allowed {
      return Refused(NotAllowlisted);
    }
    var budget := PickBudget(e, budgets);
    if budget.None? {
      return Refused(NoBudgetRule);
    }
    j := if budget.value.interval.PerAuthorization? then PerCharge(budget.value) else Accumulating(budget.value);
  }

  // A charge is approved exactly when no deny rule matches it, an allow rule does if there are any, and the
  // first of its most specific budgets has room: for the charge alone, or on top of what was spent.
  lemma ApprovedExactly(e: Scope, rules: seq<Rule>, budgets: seq<Budget>, amount: int, spent: int)
    ensures Settle(Judge(e, rules, budgets), amount, spent).approved <==>
      && (forall r | r in rules && RuleMatches(e, r.on, r.value) :: r.kind == Allow)
      && ((forall r | r in rules :: r.kind == Deny) || exists r | r in rules :: RuleMatches(e, r.on, r.value))
      && exists k | 0 <= k < |budgets| :: IsFirstBest(e, budgets, k) && HasRoom(budgets[k], amount, spent)
  {
    PickMeaning(e, budgets);
    forall r | r in rules ensures r.kind == Allow || r.kind == Deny {}
    forall i, k | 0 <= i < |budgets| && 0 <= k < |budgets| && IsFirstBest(e, budgets, i) && IsFirstBest(e, budgets, k)
      ensures i == k {
    }
  }

  // The reason given, whatever the verdict.
  lemma ReasonExactly(e: Scope, rules: seq<Rule>, budgets: seq<Budget>, amount: int, spent: int)
    ensures var v := Settle(Judge(e, rules, budgets), amount, spent);
      var denied := exists r | r in rules :: r.kind == Deny && RuleMatches(e, r.on, r.value);
      var unlisted := (exists r | r in rules :: r.kind == Allow) &&
        forall r | r in rules && r.kind == Allow :: !RuleMatches(e, r.on, r.value);
      var unbudgeted := forall b, d | b in budgets :: !Hits(e, b.scope, d);
      && (v.reason == MerchantDenied <==> denied)
      && (v.reason == NotAllowlisted <==> !denied && unlisted)
      && (v.reason == NoBudgetRule <==> !denied && !unlisted && unbudgeted)
      && (v.reason == WithinBudget <==> v.approved)
      && (v.reason == OverBudget <==> !v.approved && !denied && !unlisted && !unbudgeted)
  {
    MostSpecificPicked(e, budgets);
  }

  predicate HasRoom(b: Budget, amount: int, spent: int) {
    if b.interval.PerAuthorization? then amount <= b.limit else spent + amount <= b.limit
  }

  // Neither the order of the rules nor, without clashes, that of the budgets changes a judgement.
  lemma JudgeOrderFree(e: Scope, rules: seq<Rule>, rules': seq<Rule>, budgets: seq<Budget>, budgets': seq<Budget>)
    requires multiset(rules) == multiset(rules') && multiset(budgets) == multiset(budgets')
    requires ScopesDistinct(budgets)
    ensures Judge(e, rules', budgets') == Judge(e, rules, budgets)
  {
    SameMembers(rules, rules');
    DistinctScopesPickAlike(e, budgets, budgets');
  }

  // Deny rules only ever decline: whatever is approved with more of them was approved without them,
  // on the same ground.
  lemma DenyNeverApproves(e: Scope, rules: seq<Rule>, more: seq<Rule>, budgets: seq<Budget>, amount: int, spent: int)
    requires forall r | r in rules :: r in more
    requires forall r | r in more && r !in rules :: r.kind == Deny
    ensures Settle(Judge(e, more, budgets), amount, spent).approved ==>
              Settle(Judge(e, more, budgets), amount, spent) == Settle(Judge(e, rules, budgets), amount, spent)
  {
    if !RuledOn(e, more, Deny) {
      assert Gated(e, more) == Gated(e, rules);
    }
  }
}
