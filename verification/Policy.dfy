/** First-match policy evaluation: apps/api/captureos/guardrails/evaluation_engine.py. */
module Policy {
  import opened Lists
  import opened Wrappers
  import opened Text

  // A condition's value as JSON carries it; an object matters only through its keys.
  datatype Value =
    | Null
    | Bool(flag: bool)
    | Num(number: real)
    | Str(text: string)
    | List(items: seq<Value>)
    | Object(keys: seq<string>)

  datatype Field = Amount | Currency | Payee | Category | VendorStatus | VendorAgeDays | DailyCumulative | InitiatedBy

  datatype Op = Gt | Gte | Lt | Lte | Eq | Neq | In | NotIn | Contains

  datatype Condition = Condition(field: Field, op: Op, value: Value)

  datatype Action = Allow | Block | Escalate

  datatype Rule = Rule(conditions: seq<Condition>, action: Action, priority: nat, rationale: string)

  // A rule with the printed form of its policy id.
  datatype Entry = Entry(id: string, rule: Rule)

  datatype Transaction = Transaction(
    amount: real, currency: string, payee: string, category: Option<string>, vendorStatus: Option<string>,
    vendorAgeDays: Option<int>, dailyCumulative: Option<real>, initiatedBy: string)

  datatype Decision = Decision(action: Action, policy: Option<string>, defaultUsed: bool, reason: string,
      fired: seq<Condition>)

  // ---------------------------------------------------------------------------
  // Conditions
  // ---------------------------------------------------------------------------

  function TextOf(s: Option<string>): Option<Value> {
    if s.Some? then Some(Str(s.value)) else None
  }

  function FieldValue(t: Transaction, f: Field): Option<Value> {
    match f
    case Amount => Some(Num(t.amount))
    case Currency => Some(Str(t.currency))
    case Payee => Some(Str(t.payee))
    case Category => TextOf(t.category)
    case VendorStatus => TextOf(t.vendorStatus)
    case VendorAgeDays => if t.vendorAgeDays.Some? then Some(Num(t.vendorAgeDays.value as real)) else None
    case DailyCumulative => if t.dailyCumulative.Some? then Some(Num(t.dailyCumulative.value)) else None
    case InitiatedBy => Some(Str(t.initiatedBy))
  }

  function Normal(v: Value): Value {
    if v.Str? then Str(Strip(Lower(v.text))) else v
  }

  // Booleans are numbers.
  function Number(v: Value): Option<real> {
    if v.Num? then Some(v.number) else if v.Bool? then Some(if v.flag then 1.0 else 0.0) else None
  }

  predicate Same(a: Value, b: Value) {
    if Number(a).Some? && Number(b).Some? then Number(a) == Number(b) else a == b
  }

  // The order of strings by code point.
  predicate TextLess(a: string, b: string) {
    b != [] && (a == [] || a[0] < b[0] || (a[0] == b[0] && TextLess(a[1..], b[1..])))
  }

  // None: the comparison raises.
  function Less(a: Value, b: Value): Option<bool> {
    if Number(a).Some? && Number(b).Some? then Some(Number(a).value < Number(b).value)
    else if a.Str? && b.Str? then Some(TextLess(a.text, b.text))
    else None
  }

  function AtMost(a: Value, b: Value): Option<bool> {
    if Number(a).Some? && Number(b).Some? then Some(Number(a).value <= Number(b).value)
    else if a.Str? && b.Str? then Some(TextLess(a.text, b.text) || a.text == b.text)
    else None
  }

  // What iterating over a value yields; None: it raises.
  function Elements(v: Value): Option<seq<Value>> {
    match v
    case List(items) => Some(items)
    case Str(s) => Some(seq(|s|, i requires 0 <= i < |s| => Str([s[i]])))
    case Object(keys) => Some(seq(|keys|, i requires 0 <= i < |keys| => Str(keys[i])))
    case _ => None
  }

  predicate Member(a: Value, items: seq<Value>) {
    exists i | 0 <= i < |items| :: Same(Normal(a), Normal(items[i]))
  }

  predicate Within(part: string, whole: string) {
    exists k | 0 <= k <= |whole| :: part <= whole[k..]
  }

  function Shown(v: Value, show: Value -> string): string {
    if v.Str? then v.text else show(v)
  }

  // A comparison that raises counts as false.
  predicate Holds(outcome: Option<bool>) {
    outcome.Some? && outcome.value
  }

  // `show` is how values that are not text are printed.
  predicate Apply(op: Op, actual: Option<Value>, expected: Value, show: Value -> string) {
    if actual.None? then op.Neq? || op.NotIn?
    else
      var a := actual.value;
      match op
      case Gt => Holds(Less(expected, a))
      case Gte => Holds(AtMost(expected, a))
      case Lt => Holds(Less(a, expected))
      case Lte => Holds(AtMost(a, expected))
      case Eq => Same(Normal(a), Normal(expected))
      case Neq => !Same(Normal(a), Normal(expected))
      case In => Elements(expected).Some? && Member(a, Elements(expected).value)
      case NotIn => Elements(expected).Some? && !Member(a, Elements(expected).value)
      case Contains => Within(Lower(Shown(expected, show)), Lower(Shown(a, show)))
  }

  predicate ConditionMatches(t: Transaction, c: Condition, show: Value -> string) {
    Apply(c.op, FieldValue(t, c.field), c.value, show)
  }

  predicate RuleMatches(t: Transaction, r: Rule, show: Value -> string) {
    forall c | c in r.conditions :: ConditionMatches(t, c, show)
  }

  // ---------------------------------------------------------------------------
  // First match in the order of (priority, id)
  // ---------------------------------------------------------------------------

  predicate Before(a: Entry, b: Entry) {
    a.rule.priority < b.rule.priority || (a.rule.priority == b.rule.priority && TextLess(a.id, b.id))
  }

  // Python's sort keeps the order of equal keys.
  function Insert(sorted: seq<Entry>, e: Entry): seq<Entry> {
    if sorted == [] || !Before(e, sorted[|sorted| - 1]) then sorted + [e]
    else Insert(sorted[..|sorted| - 1], e) + [sorted[|sorted| - 1]]
  }

  function Sorted(entries: seq<Entry>): seq<Entry> {
    if entries == [] then [] else Insert(Sorted(entries[..|entries| - 1]), entries[|entries| - 1])
  }

  function FirstMatch(matches: Entry -> bool, entries: seq<Entry>): Option<Entry> {
    if entries == [] then None
    else if matches(entries[0]) then Some(entries[0])
    else FirstMatch(matches, entries[1..])
  }

  function Fired(t: Transaction, conditions: seq<Condition>, show: Value -> string): seq<Condition> {
    if conditions == [] then []
    else if ConditionMatches(t, conditions[0], show) then [conditions[0]] + Fired(t, conditions[1..], show)
    else Fired(t, conditions[1..], show)
  }

  function ActionText(a: Action): string {
    match a case Allow => "allow" case Block => "block" case Escalate => "escalate"
  }

  function Matcher(t: Transaction, show: Value -> string): Entry -> bool {
    (e: Entry) => RuleMatches(t, e.rule, show)
  }

  function Decide(t: Transaction, chosen: Option<Entry>, otherwise: Action, show: Value -> string): Decision {
    match chosen
    case Some(e) => Decision(e.rule.action, Some(e.id), false, e.rule.rationale, Fired(t, e.rule.conditions, show))
    case None => Decision(otherwise, None, true, "No policy matched; account default '" + ActionText(otherwise) +
      "' applied.", [])
  }

  function Evaluate(t: Transaction, entries: seq<Entry>, otherwise: Action, show: Value -> string): Decision {
    Decide(t, FirstMatch(Matcher(t, show), Sorted(entries)), otherwise, show)
  }

  // ---------------------------------------------------------------------------
  // The order
  // ---------------------------------------------------------------------------

  lemma {:induction false} TextOrder(a: string, b: string, c: string)
    ensures !(TextLess(a, b) && TextLess(b, a))
    ensures TextLess(a, b) || TextLess(b, a) <==> a != b
    ensures TextLess(a, b) && TextLess(b, c) ==> TextLess(a, c)
  {
    if a != [] && b != [] {
      TextOrder(a[1..], b[1..], if c == [] then [] else c[1..]);
      assert a == [a[0]] + a[1..] && b == [b[0]] + b[1..];
    }
  }

  // Where the two first differ, a ends or has the smaller character.
  predicate SmallerAt(a: string, b: string, k: nat) {
    k <= |a| && k < |b| && a[..k] == b[..k] && (k == |a| || a[k] < b[k])
  }

  lemma {:induction false} SmallerIsLess(a: string, b: string, k: nat)
    requires SmallerAt(a, b, k)
    ensures TextLess(a, b)
  {
    if k > 0 {
      assert a[0] == a[..k][0] == b[..k][0] == b[0];
      assert a[1..][..k - 1] == a[..k][1..] == b[..k][1..] == b[1..][..k - 1];
      SmallerIsLess(a[1..], b[1..], k - 1);
    }
  }

  lemma {:induction false} LessIsSmaller(a: string, b: string) returns (k: nat)
    requires TextLess(a, b)
    ensures SmallerAt(a, b, k)
  {
    k := 0;
    if a != [] && a[0] == b[0] {
      k := LessIsSmaller(a[1..], b[1..]);
      assert a[..k + 1] == [a[0]] + a[1..][..k] && b[..k + 1] == [b[0]] + b[1..][..k];
      k := k + 1;
    }
  }

  // One string is less than another if it is its beginning, or smaller where they first differ.
  lemma TextMeaning(a: string, b: string)
    ensures TextLess(a, b) <==> exists k :: SmallerAt(a, b, k)
  {
    if TextLess(a, b) {
      var k := LessIsSmaller(a, b);
    }
    if k: nat :| SmallerAt(a, b, k) {
      SmallerIsLess(a, b, k);
    }
  }

  // Entries are in order up to ties in the key, so this is a strict weak order.
  lemma BeforeOrder(a: Entry, b: Entry, c: Entry)
    ensures !(Before(a, b) && Before(b, a))
    ensures Before(a, b) && Before(b, c) ==> Before(a, c)
    ensures !Before(b, a) && !Before(c, b) ==> !Before(c, a)
    ensures !Before(a, b) && !Before(b, a) <==> a.id == b.id && a.rule.priority == b.rule.priority
  {
    TextOrder(a.id, b.id, c.id);
    TextOrder(c.id, b.id, a.id);
    TextOrder(c.id, a.id, b.id);
  }

  predicate InOrder(entries: seq<Entry>) {
    forall i, j | 0 <= i < j < |entries| :: !Before(entries[j], entries[i])
  }

  lemma {:induction false} InsertMembers(sorted: seq<Entry>, e: Entry)
    ensures multiset(Insert(sorted, e)) == multiset(sorted) + multiset{e}
  {
    if sorted != [] {
      var n := |sorted| - 1;
      assert sorted == sorted[..n] + [sorted[n]];
      InsertMembers(sorted[..n], e);
    }
  }

  lemma {:induction false} InsertOrders(sorted: seq<Entry>, e: Entry)
    requires InOrder(sorted)
    ensures InOrder(Insert(sorted, e))
    ensures forall x | x in Insert(sorted, e) :: x == e || x in sorted
  {
    var n := |sorted| - 1;
    if sorted == [] {
    } else if !Before(e, sorted[n]) {
      forall i | 0 <= i < n ensures !Before(e, sorted[i]) {
        BeforeOrder(sorted[i], sorted[n], e);
      }
    } else {
      InsertOrders(sorted[..n], e);
      BeforeOrder(sorted[n], e, e);
      var rest := Insert(sorted[..n], e);
      forall i | 0 <= i < |rest| ensures !Before(sorted[n], rest[i]) {
        assert rest[i] == e || rest[i] in sorted[..n];
      }
    }
  }

  lemma {:induction false} SortedOrders(entries: seq<Entry>)
    ensures InOrder(Sorted(entries))
  {
    if entries != [] {
      SortedOrders(entries[..|entries| - 1]);
      InsertOrders(Sorted(entries[..|entries| - 1]), entries[|entries| - 1]);
    }
  }

  // The sort orders the entries, and only rearranges them.
  lemma {:induction false} SortedRearranges(entries: seq<Entry>)
    ensures multiset(Sorted(entries)) == multiset(entries)
  {
    if entries != [] {
      var rest, e := entries[..|entries| - 1], entries[|entries| - 1];
      SortedRearranges(rest);
      assert entries == rest + [e];
      assert Sorted(entries) == Insert(Sorted(rest), e);
      InsertMembers(Sorted(rest), e);
    }
  }

  // ---------------------------------------------------------------------------
  // Which rule wins
  // ---------------------------------------------------------------------------

  // The winner without sorting: move only to a match with a strictly smaller key.
  function Least(matches: Entry -> bool, entries: seq<Entry>): Option<Entry> {
    if entries == [] then None
    else
      var e, prior := entries[|entries| - 1], Least(matches, entries[..|entries| - 1]);
      if matches(e) && (prior.Some? ==> Before(e, prior.value)) then Some(e) else prior
  }

  lemma {:induction false} FirstMatchAppend(matches: Entry -> bool, entries: seq<Entry>, e: Entry)
    ensures FirstMatch(matches, entries + [e])
      == if FirstMatch(matches, entries).Some? then FirstMatch(matches, entries)
         else if matches(e) then Some(e) else None
  {
    if entries != [] {
      assert (entries + [e])[1..] == entries[1..] + [e];
      FirstMatchAppend(matches, entries[1..], e);
    }
  }

  lemma {:induction false} FirstMatchIn(matches: Entry -> bool, entries: seq<Entry>)
    ensures FirstMatch(matches, entries).Some? ==> FirstMatch(matches, entries).value in entries
  {
    if entries != [] {
      FirstMatchIn(matches, entries[1..]);
    }
  }

  lemma {:induction false} FirstOfInsert(matches: Entry -> bool, sorted: seq<Entry>, e: Entry)
    requires InOrder(sorted)
    ensures var first := FirstMatch(matches, sorted);
      FirstMatch(matches, Insert(sorted, e)) == if matches(e) && (first.Some? ==> Before(e, first.value)) then Some(e)
        else first
  {
    var n := |sorted| - 1;
    if sorted == [] {
    } else if !Before(e, sorted[n]) {
      FirstMatchAppend(matches, sorted, e);
      FirstMatchIn(matches, sorted);
      forall i | 0 <= i < n ensures !Before(e, sorted[i]) {
        BeforeOrder(sorted[i], sorted[n], e);
      }
    } else {
      assert sorted == sorted[..n] + [sorted[n]];
      FirstOfInsert(matches, sorted[..n], e);
      FirstMatchAppend(matches, Insert(sorted[..n], e), sorted[n]);
      FirstMatchAppend(matches, sorted[..n], sorted[n]);
    }
  }

  // Sorting and taking the first match is keeping the least match.
  lemma {:induction false} FirstIsLeast(matches: Entry -> bool, entries: seq<Entry>)
    ensures FirstMatch(matches, Sorted(entries)) == Least(matches, entries)
  {
    if entries != [] {
      var n := |entries| - 1;
      FirstIsLeast(matches, entries[..n]);
      SortedOrders(entries[..n]);
      FirstOfInsert(matches, Sorted(entries[..n]), entries[n]);
    }
  }

  // Entry k matches, no match has a smaller key, and earlier ones have greater keys.
  predicate Wins(matches: Entry -> bool, entries: seq<Entry>, k: nat)
    requires k < |entries|
  {
    && matches(entries[k])
    && (forall i | 0 <= i < |entries| && matches(entries[i]) :: !Before(entries[i], entries[k]))
    && (forall i | 0 <= i < k && matches(entries[i]) :: Before(entries[k], entries[i]))
  }

  lemma {:induction false} LeastMeaning(matches: Entry -> bool, entries: seq<Entry>) returns (k: nat)
    ensures Least(matches, entries).None? <==> forall e | e in entries :: !matches(e)
    ensures Least(matches, entries).Some? ==>
      k < |entries| && entries[k] == Least(matches, entries).value && Wins(matches, entries, k)
  {
    k := 0;
    if entries != [] {
      var n := |entries| - 1;
      var rest := entries[..n];
      k := LeastMeaning(matches, rest);
      assert entries == rest + [entries[n]];
      if matches(entries[n]) {
        if Least(matches, rest).None? {
          k := n;
          BeforeOrder(entries[n], entries[n], entries[n]);
        } else if Before(entries[n], rest[k]) {
          BeforeOrder(entries[n], entries[n], entries[n]);
          forall i | 0 <= i < n && matches(entries[i]) ensures Before(entries[n], entries[i]) {
            BeforeOrder(rest[k], entries[i], entries[n]);
            BeforeOrder(entries[n], rest[k], entries[i]);
            BeforeOrder(entries[n], entries[i], rest[k]);
            assert rest[i] == entries[i];
          }
          forall i | 0 <= i < n && matches(entries[i]) ensures !Before(entries[i], entries[n]) {
            BeforeOrder(entries[i], entries[n], entries[n]);
          }
          k := n;
        }
      }
    }
  }

  // The decision is that of the matching rule least by (priority, id), with all of its conditions fired; the
  // default is used exactly when no rule matches.
  lemma EvaluateMeaning(t: Transaction, entries: seq<Entry>, otherwise: Action, show: Value -> string)
    ensures var d := Evaluate(t, entries, otherwise, show);
      && (d.defaultUsed <==> forall e | e in entries :: !RuleMatches(t, e.rule, show))
      && (d.defaultUsed ==> d.action == otherwise && d.policy.None? && d.fired == [])
      && (!d.defaultUsed ==> exists k | 0 <= k < |entries| ::
            && Wins(Matcher(t, show), entries, k)
            && d == Decision(entries[k].rule.action, Some(entries[k].id), false, entries[k].rule.rationale,
              entries[k].rule.conditions))
  {
    FirstIsLeast(Matcher(t, show), entries);
    var k := LeastMeaning(Matcher(t, show), entries);
    if Least(Matcher(t, show), entries).Some? {
      AllFired(t, entries[k].rule.conditions, show);
      assert entries[k] in entries;
    }
  }

  // The key of a is at most that of b: a smaller priority number, or the same and an id that is not greater.
  predicate NoLater(a: Entry, b: Entry) {
    a.rule.priority < b.rule.priority || (a.rule.priority == b.rule.priority && !TextLess(b.id, a.id))
  }

  lemma WinnerComesFirst(matches: Entry -> bool, entries: seq<Entry>, k: nat)
    requires k < |entries| && Wins(matches, entries, k)
    ensures matches(entries[k]) && forall e | e in entries && matches(e) :: NoLater(entries[k], e)
  {
    forall e | e in entries && matches(e) ensures NoLater(entries[k], e) {
      var i :| 0 <= i < |entries| && entries[i] == e;
      assert !Before(entries[i], entries[k]);
    }
  }

  // The rule that decides matches, and has the least priority number of all that do, and among those the least id.
  lemma LeastKeyDecides(t: Transaction, entries: seq<Entry>, otherwise: Action, show: Value -> string)
    ensures var d := Evaluate(t, entries, otherwise, show);
      !d.defaultUsed ==> exists k | 0 <= k < |entries| ::
        && d.policy == Some(entries[k].id) && d.action == entries[k].rule.action
        && Matcher(t, show)(entries[k])
        && forall e | e in entries && Matcher(t, show)(e) :: NoLater(entries[k], e)
  {
    EvaluateMeaning(t, entries, otherwise, show);
    forall k: nat | k < |entries| && Wins(Matcher(t, show), entries, k)
      ensures Matcher(t, show)(entries[k]) && forall e | e in entries && Matcher(t, show)(e) :: NoLater(entries[k], e)
    {
      WinnerComesFirst(Matcher(t, show), entries, k);
    }
  }

  lemma {:induction false} AllFired(t: Transaction, conditions: seq<Condition>, show: Value -> string)
    requires forall c | c in conditions :: ConditionMatches(t, c, show)
    ensures Fired(t, conditions, show) == conditions
  {
    if conditions != [] {
      AllFired(t, conditions[1..], show);
    }
  }

  // ---------------------------------------------------------------------------
  // The order of the input
  // ---------------------------------------------------------------------------

  ghost predicate OrderFree(matches: Entry -> bool, entries: seq<Entry>) {
    forall other: seq<Entry> | multiset(other) == multiset(entries) ::
      FirstMatch(matches, Sorted(other)) == FirstMatch(matches, Sorted(entries))
  }

  predicate LeastAmong(matches: Entry -> bool, entries: seq<Entry>, a: Entry) {
    a in entries && matches(a) && forall e | e in entries && matches(e) :: !Before(e, a)
  }

  // No two different matches share the least key.
  predicate NoTie(matches: Entry -> bool, entries: seq<Entry>) {
    forall a, b | a in entries && b in entries && LeastAmong(matches, entries, a) && LeastAmong(matches, entries, b) ::
      a == b
  }

  lemma WinnerIsLeast(matches: Entry -> bool, entries: seq<Entry>)
    ensures var w := FirstMatch(matches, Sorted(entries));
      if w.Some? then LeastAmong(matches, entries, w.value) else forall e | e in entries :: !matches(e)
  {
    FirstIsLeast(matches, entries);
    var k := LeastMeaning(matches, entries);
  }

  lemma HeadWinsTie(matches: Entry -> bool, entries: seq<Entry>, a: Entry)
    requires LeastAmong(matches, entries, a) && entries[0] == a
    ensures FirstMatch(matches, Sorted(entries)) == Some(a)
  {
    FirstIsLeast(matches, entries);
    var k := LeastMeaning(matches, entries);
    assert entries[0] in entries && entries[k] in entries;
  }

  lemma TieDecidesByOrder(matches: Entry -> bool, entries: seq<Entry>, a: Entry, b: Entry)
    requires LeastAmong(matches, entries, a) && LeastAmong(matches, entries, b) && a != b
    ensures !OrderFree(matches, entries)
  {
    var first := FrontWins(matches, entries, a);
    var second := FrontWins(matches, entries, b);
    assert FirstMatch(matches, Sorted(first)) != FirstMatch(matches, Sorted(second));
  }

  lemma FrontWins(matches: Entry -> bool, entries: seq<Entry>, e: Entry) returns (moved: seq<Entry>)
    requires LeastAmong(matches, entries, e)
    ensures multiset(moved) == multiset(entries) && FirstMatch(matches, Sorted(moved)) == Some(e)
  {
    moved := MoveToFront(entries, e);
    SameMembers(moved, entries);
    HeadWinsTie(matches, moved, e);
  }

  // A rearrangement can change the winner exactly when two different matches tie for it.
  lemma OrderFreeExactly(matches: Entry -> bool, entries: seq<Entry>)
    ensures OrderFree(matches, entries) <==> NoTie(matches, entries)
  {
    if NoTie(matches, entries) {
      forall other: seq<Entry> | multiset(other) == multiset(entries)
        ensures FirstMatch(matches, Sorted(other)) == FirstMatch(matches, Sorted(entries))
      {
        SameMembers(other, entries);
        WinnerIsLeast(matches, entries);
        WinnerIsLeast(matches, other);
      }
    } else {
      var a, b :| a in entries && b in entries && LeastAmong(matches, entries, a) && LeastAmong(matches, entries, b) &&
        a != b;
      TieDecidesByOrder(matches, entries, a, b);
    }
  }

  predicate DistinctIds(entries: seq<Entry>) {
    forall a, b | a in entries && b in entries && a.id == b.id :: a == b
  }

  lemma DistinctIdsOrderFree(t: Transaction, entries: seq<Entry>, other: seq<Entry>, otherwise: Action,
      show: Value -> string)
    requires DistinctIds(entries) && multiset(other) == multiset(entries)
    ensures Evaluate(t, other, otherwise, show) == Evaluate(t, entries, otherwise, show)
  {
    var m := Matcher(t, show);
    forall a, b | LeastAmong(m, entries, a) && LeastAmong(m, entries, b) ensures a == b {
      BeforeOrder(a, b, a);
    }
    OrderFreeExactly(m, entries);
  }

  function Matching(matches: Entry -> bool, entries: seq<Entry>): seq<Entry> {
    if entries == [] then []
    else
      var e, rest := entries[|entries| - 1], Matching(matches, entries[..|entries| - 1]);
      if matches(e) then rest + [e] else rest
  }

  lemma {:induction false} LeastOfMatching(matches: Entry -> bool, entries: seq<Entry>)
    ensures Least(matches, Matching(matches, entries)) == Least(matches, entries)
  {
    if entries != [] {
      LeastOfMatching(matches, entries[..|entries| - 1]);
    }
  }

  // Rules that do not match never matter, whatever their priority and wherever they stand.
  lemma OnlyMatchesMatter(t: Transaction, entries: seq<Entry>, other: seq<Entry>, otherwise: Action,
      show: Value -> string)
    requires Matching(Matcher(t, show), entries) == Matching(Matcher(t, show), other)
    ensures Evaluate(t, entries, otherwise, show) == Evaluate(t, other, otherwise, show)
  {
    var m := Matcher(t, show);
    FirstIsLeast(m, entries);
    FirstIsLeast(m, other);
    LeastOfMatching(m, entries);
    LeastOfMatching(m, other);
  }

  // ---------------------------------------------------------------------------
  // Attributes that a transaction does not carry
  // ---------------------------------------------------------------------------

  // Of attributes that are missing, the conditions only deny something.
  predicate Answerable(t: Transaction, conditions: seq<Condition>) {
    forall c | c in conditions && FieldValue(t, c.field).None? :: c.op.Neq? || c.op.NotIn?
  }

  lemma {:induction false} MatchingAmong(matches: Entry -> bool, kept: Entry -> bool, entries: seq<Entry>)
    requires forall e | matches(e) :: kept(e)
    ensures Matching(matches, Matching(kept, entries)) == Matching(matches, entries)
  {
    if entries != [] {
      var n := |entries| - 1;
      var rest := Matching(kept, entries[..n]);
      MatchingAmong(matches, kept, entries[..n]);
      assert (rest + [entries[n]])[..|rest|] == rest;
    }
  }

  // A missing attribute is no ground for a decision: rules that ask anything positive about one can be left out
  // without changing what is decided, and no such condition is ever reported as fired.
  lemma MissingDecidesNothing(t: Transaction, entries: seq<Entry>, otherwise: Action, show: Value -> string)
    ensures Evaluate(t, Matching((e: Entry) => Answerable(t, e.rule.conditions), entries), otherwise, show)
         == Evaluate(t, entries, otherwise, show)
    ensures Answerable(t, Evaluate(t, entries, otherwise, show).fired)
  {
    var kept := (e: Entry) => Answerable(t, e.rule.conditions);
    forall e: Entry | Matcher(t, show)(e) ensures kept(e) {
      forall c | c in e.rule.conditions ensures ConditionMatches(t, c, show) {}
    }
    MatchingAmong(Matcher(t, show), kept, entries);
    OnlyMatchesMatter(t, Matching(kept, entries), entries, otherwise, show);
    EvaluateMeaning(t, entries, otherwise, show);
  }

  // ---------------------------------------------------------------------------
  // What the operators mean
  // ---------------------------------------------------------------------------

  // On numbers and on texts the order operators compare the transaction's value with the rule's, in this direction.
  lemma OrderMeaning(x: real, y: real, a: string, b: string, show: Value -> string)
    ensures Apply(Gt, Some(Num(x)), Num(y), show) <==> x > y
    ensures Apply(Gte, Some(Num(x)), Num(y), show) <==> x >= y
    ensures Apply(Lt, Some(Num(x)), Num(y), show) <==> x < y
    ensures Apply(Lte, Some(Num(x)), Num(y), show) <==> x <= y
    ensures Apply(Gt, Some(Str(a)), Str(b), show) <==> TextLess(b, a)
    ensures Apply(Gte, Some(Str(a)), Str(b), show) <==> !TextLess(a, b)
    ensures Apply(Lt, Some(Str(a)), Str(b), show) <==> TextLess(a, b)
    ensures Apply(Lte, Some(Str(a)), Str(b), show) <==> !TextLess(b, a)
  {
    TextOrder(a, b, []);
  }

  lemma WithinMeaning(part: string, whole: string)
    ensures Within(part, whole) <==> exists head, tail :: whole == head + part + tail
  {
    if k :| 0 <= k <= |whole| && part <= whole[k..] {
      assert whole == whole[..k] + part + whole[k..][|part|..];
    }
    if head, tail :| whole == head + part + tail {
      assert whole[|head|..] == part + tail;
    }
  }

  // Equal up to case and surrounding space.
  predicate SameText(a: Option<string>, b: string) {
    a.Some? && Strip(Lower(a.value)) == Strip(Lower(b))
  }

  lemma EqualTexts(a: Option<string>, b: string, show: Value -> string)
    ensures Apply(Eq, TextOf(a), Str(b), show) <==> SameText(a, b)
  {
  }

  // A truth value counts as the number one or zero.
  lemma BooleansAreNumbers(x: real, flag: bool, show: Value -> string)
    ensures var y := if flag then 1.0 else 0.0;
      && (Apply(Eq, Some(Num(x)), Bool(flag), show) <==> x == y)
      && (Apply(Gt, Some(Num(x)), Bool(flag), show) <==> x > y)
      && (Apply(Lt, Some(Num(x)), Bool(flag), show) <==> x < y)
  {
  }

  // Contains asks for the rule's text anywhere in the transaction's, whatever the case of the letters.
  lemma ContainsMeaning(a: string, b: string, show: Value -> string)
    ensures Apply(Contains, Some(Str(a)), Str(b), show) <==> exists head, tail :: Lower(a) == head + Lower(b) + tail
  {
    WithinMeaning(Lower(b), Lower(a));
  }

  // The attributes that are text.
  function Attribute(t: Transaction, f: Field): Option<string> {
    match f
    case Currency => Some(t.currency)
    case Payee => Some(t.payee)
    case Category => t.category
    case VendorStatus => t.vendorStatus
    case InitiatedBy => Some(t.initiatedBy)
    case _ => None
  }

  // Each condition reads the attribute that it names.
  lemma TextFieldRead(t: Transaction, f: Field, s: string, show: Value -> string)
    requires !f.Amount? && !f.DailyCumulative? && !f.VendorAgeDays?
    ensures ConditionMatches(t, Condition(f, Eq, Str(s)), show) <==> SameText(Attribute(t, f), s)
  {
    assert FieldValue(t, f) == TextOf(Attribute(t, f));
    EqualTexts(Attribute(t, f), s, show);
  }

  lemma NumberFieldsRead(t: Transaction, x: real, show: Value -> string)
    ensures ConditionMatches(t, Condition(Amount, Eq, Num(x)), show) <==> t.amount == x
    ensures ConditionMatches(t, Condition(DailyCumulative, Eq, Num(x)), show) <==> t.dailyCumulative == Some(x)
    ensures ConditionMatches(t, Condition(VendorAgeDays, Eq, Num(x)), show) <==>
      t.vendorAgeDays.Some? && t.vendorAgeDays.value as real == x
  {
  }

  // ---------------------------------------------------------------------------
  // How the operators relate
  // ---------------------------------------------------------------------------

  // In is equality with some element and not-in inequality with every one, whatever the actual value, provided the
  // expected one can be iterated over; if it cannot, in never holds and not-in only of a missing value.
  lemma MembershipIsEquality(actual: Option<Value>, expected: Value, show: Value -> string)
    ensures match Elements(expected)
      case Some(items) =>
        && (Apply(In, actual, expected, show) <==> exists i | 0 <= i < |items| :: Apply(Eq, actual, items[i], show))
        && (Apply(NotIn, actual, expected, show) <==> forall i | 0 <= i < |items| :: Apply(Neq, actual, items[i], show))
      case None => !Apply(In, actual, expected, show) && (Apply(NotIn, actual, expected, show) <==> actual.None?)
  {
    if Elements(expected).Some? && actual.Some? {
      var items := Elements(expected).value;
      forall i | 0 <= i < |items|
        ensures Apply(Eq, actual, items[i], show) <==> Same(Normal(actual.value), Normal(items[i]))
        ensures Apply(Neq, actual, items[i], show) <==> !Same(Normal(actual.value), Normal(items[i]))
      {
      }
    }
  }

  // Position by position.
  ghost predicate ElementsAre(v: Value, at: int -> Option<Value>) {
    Elements(v).Some? && forall i: int ::
      at(i) == if 0 <= i < |Elements(v).value| then Some(Elements(v).value[i]) else None
  }

  // An object stands for its keys and a text for its characters; a number, a truth value or null has no elements.
  lemma ElementsMeaning(texts: seq<string>, s: string, x: real, flag: bool)
    ensures ElementsAre(Object(texts), i => if 0 <= i < |texts| then Some(Str(texts[i])) else None)
    ensures ElementsAre(Str(s), i => if 0 <= i < |s| then Some(Str([s[i]])) else None)
    ensures Elements(Num(x)).None? && Elements(Bool(flag)).None? && Elements(Null).None?
  {
  }

  // Not-equal is always the opposite of equal, and not-in that of in exactly when the value is missing or the
  // expected one can be iterated over.
  lemma NegativesOppose(actual: Option<Value>, expected: Value, show: Value -> string)
    ensures Apply(Neq, actual, expected, show) != Apply(Eq, actual, expected, show)
    ensures Apply(NotIn, actual, expected, show) != Apply(In, actual, expected, show)
      <==> actual.None? || Elements(expected).Some?
  {
    MembershipIsEquality(actual, expected, show);
  }

  // At-most is the opposite of greater-than, and at-least of less-than, exactly when both values are present and
  // can be compared.
  lemma ComparisonsOppose(actual: Option<Value>, expected: Value, show: Value -> string)
    ensures Apply(Lte, actual, expected, show) != Apply(Gt, actual, expected, show)
      <==> actual.Some? && Less(expected, actual.value).Some?
    ensures Apply(Gte, actual, expected, show) != Apply(Lt, actual, expected, show)
      <==> actual.Some? && Less(expected, actual.value).Some?
  {
    if actual.Some? && actual.value.Str? && expected.Str? {
      TextOrder(actual.value.text, expected.text, []);
    }
  }

  // A condition on the amount that only asks for enough of it.
  predicate LowerBound(c: Condition) {
    c.field.Amount? ==> c.op.Gt? || c.op.Gte?
  }

  // A larger charge never slips past a rule that asks for a minimum.
  lemma RaisingAmountStillMatches(t: Transaction, more: real, r: Rule, show: Value -> string)
    requires RuleMatches(t, r, show) && t.amount <= more && forall c | c in r.conditions :: LowerBound(c)
    ensures RuleMatches(t.(amount := more), r, show)
  {
    forall c | c in r.conditions ensures ConditionMatches(t.(amount := more), c, show) {
      assert ConditionMatches(t, c, show);
      if !c.field.Amount? {
        assert FieldValue(t.(amount := more), c.field) == FieldValue(t, c.field);
      }
    }
  }
}
