/**
 Racing billing webhooks, apps/api/captureos/services/billing.py: concurrent, duplicated and redelivered
 events against three unique keys (revenue by external id, entitlement by organization, processed events
 by event id) and one table without any (the mirrored subscription).

 A delivery checks for prior processing, looks up the mirror and the entitlement it may have to create, in
 the handler's order and with other deliveries in between, flushes its inserts and commits; a flush that meets a
 committed key rolls back and, for a checkout, looks again for its revenue. A run is any list of labels, those that
 are not enabled changing nothing.
 */
module BillingRace {
  import opened Wrappers
  import opened Sums
  import opened BillingEvents

  datatype Writes = Writes(revenue: Option<Revenue>, entitlement: Option<nat>, mirror: Option<nat>,
      ledger: Option<string>)

  datatype Phase =
    | Waiting
    | Checked(org: nat)
    | Looked(org: nat, found: Option<nat>)   // what the first of the two lookups will have inserted
    | Prepared(writes: Writes)
    | Flushed(writes: Writes)
    | Conflicted
    | Returned(changed: bool)
    | Raised

  datatype Delivery = Delivery(event: Event, phase: Phase) {
    predicate Finished() {
      phase.Returned? || phase.Raised?
    }
  }

  // Entitlements and mirrors appear only as the organizations they belong to.
  datatype State = State(revenue: seq<Revenue>, entitlements: seq<nat>, mirrors: seq<nat>, ledger: seq<string>,
                         deliveries: seq<Delivery>)

  const START := State([], [], [], [], [])

  datatype Label =
    | Arrive(event: Event)
    | Check(d: nat, resolved: Option<nat>)   // the org a subscription id leads to, when no org id is given
    | Look(d: nat)
    | LookAgain(d: nat)
    | Flush(d: nat)
    | Recheck(d: nat)
    | Commit(d: nat)
    | Fail(d: nat)                            // any other error or a crash; the transaction rolls back

  ghost predicate Fulfilled(revenue: seq<Revenue>, id: string) {
    exists r | r in revenue :: r.externalId == id
  }

  function CountOf(org: nat): nat -> int {
    o => if o == org then 1 else 0
  }

  // Whether a subscription event in this status touches the mirror row.
  predicate Mirrors(e: Event) {
    match e
    case Updated(_, _, _, status, _, _) => status == Some(Active) || status == Some(PastDue) || status == Some(Canceled)
    case _ => true
  }

  ghost predicate KeysClash(a: Writes, b: Writes) {
    || (a.revenue.Some? && b.revenue.Some? && a.revenue.value.externalId == b.revenue.value.externalId)
    || (a.entitlement.Some? && a.entitlement == b.entitlement)
    || (a.ledger.Some? && a.ledger == b.ledger)
  }

  ghost predicate KeysTaken(s: State, w: Writes) {
    || (w.revenue.Some? && Fulfilled(s.revenue, w.revenue.value.externalId))
    || (w.entitlement.Some? && w.entitlement.value in s.entitlements)
    || (w.ledger.Some? && w.ledger.value in s.ledger)
  }

  ghost predicate Enabled(s: State, l: Label) {
    l.Arrive? ||
    (l.d < |s.deliveries| &&
     var phase := s.deliveries[l.d].phase;
     match l
     case Check(_, _) => phase.Waiting?
     case Look(_) => phase.Checked?
     case LookAgain(_) => phase.Looked?
     case Flush(d) =>
       && phase.Prepared?
       // An insert waits for an unfinished transaction that holds the same key.
       && forall q | 0 <= q < |s.deliveries| && q != d && s.deliveries[q].phase.Flushed? ::
            !KeysClash(phase.writes, s.deliveries[q].phase.writes)
     case Recheck(_) => phase.Conflicted?
     case Commit(_) => phase.Flushed?
     case Fail(d) => !s.deliveries[d].Finished())
  }

  // The first query of either handler.
  ghost function AfterCheck(orgs: set<nat>, s: State, e: Event, resolved: Option<nat>): Phase {
    if e.Checkout? then
      if e.product.OtherTier? then Returned(false)
      else if !e.ref.OrgIs? then Raised
      else if e.ref.org !in orgs then Returned(false)
      else if Fulfilled(s.revenue, e.externalId) then Returned(false)
      else Checked(e.ref.org)
    else
      var org := match e.ref case OrgIs(o) => Some(o) case BadOrg => None case NoOrg => resolved;
      if org.None? || org.value !in orgs then Returned(false)
      else if LedgerKey(e).Some? && LedgerKey(e).value in s.ledger then Returned(false)
      else Checked(org.value)
  }

  // The row to insert when a lookup by organization finds none.
  function Missing(rows: seq<nat>, org: nat): Option<nat> {
    if org in rows then None else Some(org)
  }

  // Two mirror rows make scalar_one_or_none raise.
  ghost predicate MirrorsClash(s: State, e: Event, org: nat) {
    Mirrors(e) && Sum(CountOf(org), s.mirrors) > 1
  }

  function MissingMirror(s: State, e: Event, org: nat): Option<nat> {
    if Mirrors(e) then Missing(s.mirrors, org) else None
  }

  // A checkout looks up the mirror first, any other event the entitlement.
  ghost function AfterLook(s: State, e: Event, org: nat): Phase {
    if !e.Checkout? then Looked(org, Missing(s.entitlements, org))
    else if MirrorsClash(s, e, org) then Raised
    else Looked(org, MissingMirror(s, e, org))
  }

  ghost function AfterLookAgain(s: State, e: Event, org: nat, found: Option<nat>): Phase {
    if e.Checkout? then
      Prepared(Writes(if e.ref.OrgIs? then Some(RevenueOf(e))
        else None, Missing(s.entitlements, org), found, LedgerKey(e)))
    else if MirrorsClash(s, e, org) then Raised
    else Prepared(Writes(None, found, MissingMirror(s, e, org), LedgerKey(e)))
  }

  ghost function NextPhase(orgs: set<nat>, s: State, l: Label): Phase
    requires !l.Arrive? && Enabled(s, l)
  {
    var e, phase := s.deliveries[l.d].event, s.deliveries[l.d].phase;
    match l
    case Check(_, resolved) => AfterCheck(orgs, s, e, resolved)
    case Look(_) => AfterLook(s, e, phase.org)
    case LookAgain(_) => AfterLookAgain(s, e, phase.org, phase.found)
    case Flush(_) => if KeysTaken(s, phase.writes) then Conflicted else Flushed(phase.writes)
    case Recheck(_) => if e.Checkout? && !Fulfilled(s.revenue, e.externalId) then Raised else Returned(false)
    case Commit(_) => Returned(true)
    case Fail(_) => Raised
  }

  function Add<T>(s: seq<T>, x: Option<T>): seq<T> {
    if x.Some? then s + [x.value] else s
  }

  ghost function Step(orgs: set<nat>, s: State, l: Label): State {
    if !Enabled(s, l) then s
    else if l.Arrive? then s.(deliveries := s.deliveries + [Delivery(l.event, Waiting)])
    else
      var moved := s.deliveries[l.d := s.deliveries[l.d].(phase := NextPhase(orgs, s, l))];
      if l.Commit? then
        var w := s.deliveries[l.d].phase.writes;
        State(Add(s.revenue, w.revenue), Add(s.entitlements, w.entitlement), Add(s.mirrors, w.mirror),
              Add(s.ledger, w.ledger), moved)
      else s.(deliveries := moved)
  }

  ghost function Run(orgs: set<nat>, labels: seq<Label>): State {
    if labels == [] then START else Step(orgs, Run(orgs, labels[..|labels| - 1]), labels[|labels| - 1])
  }

  // ---------------------------------------------------------------------------
  // Unique keys
  // ---------------------------------------------------------------------------

  predicate NoRepeats<T(==)>(s: seq<T>) {
    forall i, j | 0 <= i < j < |s| :: s[i] != s[j]
  }

  predicate IdsDistinct(revenue: seq<Revenue>) {
    forall i, j | 0 <= i < j < |revenue| :: revenue[i].externalId != revenue[j].externalId
  }

  predicate WritesFit(orgs: set<nat>, e: Event, w: Writes) {
    w.revenue == if Fulfillable(orgs, e) then Some(RevenueOf(e)) else None
  }

  ghost predicate DeliverySound(orgs: set<nat>, s: State, d: Delivery) {
    match d.phase
    case Checked(_) => d.event.Checkout? ==> Fulfillable(orgs, d.event)
    case Looked(_, _) => d.event.Checkout? ==> Fulfillable(orgs, d.event)
    case Prepared(w) => WritesFit(orgs, d.event, w) && (d.event.Checkout? ==> Fulfillable(orgs, d.event))
    case Flushed(w) => WritesFit(orgs, d.event, w) && (d.event.Checkout? ==> Fulfillable(orgs, d.event)) &&
      !KeysTaken(s, w)
    case Conflicted => d.event.Checkout? ==> Fulfillable(orgs, d.event)
    case Returned(changed) =>
      && (Fulfillable(orgs, d.event) ==> Fulfilled(s.revenue, d.event.externalId))
      && (changed && Fulfillable(orgs, d.event) ==> RevenueOf(d.event) in s.revenue)
      && (changed && d.event.Checkout? ==> Fulfillable(orgs, d.event))
    case _ => true
  }

  ghost predicate Apart(a: Delivery, b: Delivery) {
    a.phase.Flushed? && b.phase.Flushed? ==> !KeysClash(a.phase.writes, b.phase.writes)
  }

  ghost predicate Sound(orgs: set<nat>, s: State) {
    && IdsDistinct(s.revenue) && NoRepeats(s.entitlements) && NoRepeats(s.ledger)
    && (forall d | 0 <= d < |s.deliveries| :: DeliverySound(orgs, s, s.deliveries[d]))
    && (forall c, d | 0 <= c < d < |s.deliveries| :: Apart(s.deliveries[c], s.deliveries[d]))
  }

  lemma AddKeepsFulfilled(revenue: seq<Revenue>, x: Option<Revenue>)
    ensures forall id ::
      Fulfilled(Add(revenue, x), id) <==> Fulfilled(revenue, id) || (x.Some? && x.value.externalId == id)
    ensures forall r | r in revenue :: r in Add(revenue, x)
    ensures x.Some? ==> x.value in Add(revenue, x)
  {
    if x.Some? {
      assert x.value in revenue + [x.value];
      forall r | r in revenue ensures r in revenue + [x.value] {}
    }
  }

  lemma CommitKeepsKeys(orgs: set<nat>, s: State, d: nat)
    requires Sound(orgs, s) && d < |s.deliveries| && s.deliveries[d].phase.Flushed?
    ensures var s' := Step(orgs, s, Commit(d));
      IdsDistinct(s'.revenue) && NoRepeats(s'.entitlements) && NoRepeats(s'.ledger)
  {
    assert DeliverySound(orgs, s, s.deliveries[d]);
    var w := s.deliveries[d].phase.writes;
    forall r | r in s.revenue && w.revenue.Some? ensures r.externalId != w.revenue.value.externalId {}
  }

  lemma MoverSound(orgs: set<nat>, s: State, l: Label)
    requires Sound(orgs, s) && !l.Arrive? && Enabled(s, l)
    ensures DeliverySound(orgs, Step(orgs, s, l), s.deliveries[l.d].(phase := NextPhase(orgs, s, l)))
  {
    assert DeliverySound(orgs, s, s.deliveries[l.d]);
    if l.Commit? {
      AddKeepsFulfilled(s.revenue, s.deliveries[l.d].phase.writes.revenue);
    }
  }

  lemma BystanderSound(orgs: set<nat>, s: State, l: Label, q: nat)
    requires Sound(orgs, s) && q < |s.deliveries| && (l.Arrive? || l.d != q)
    ensures DeliverySound(orgs, Step(orgs, s, l), s.deliveries[q])
  {
    assert DeliverySound(orgs, s, s.deliveries[q]);
    if Enabled(s, l) && l.Commit? {
      AddKeepsFulfilled(s.revenue, s.deliveries[l.d].phase.writes.revenue);
      assert Apart(s.deliveries[Min(l.d, q)], s.deliveries[Max(l.d, q)]);
    }
  }

  lemma StepSound(orgs: set<nat>, s: State, l: Label)
    requires Sound(orgs, s)
    ensures Sound(orgs, Step(orgs, s, l))
  {
    if Enabled(s, l) {
      var s' := Step(orgs, s, l);
      if l.Commit? {
        CommitKeepsKeys(orgs, s, l.d);
      }
      forall d | 0 <= d < |s'.deliveries| ensures DeliverySound(orgs, s', s'.deliveries[d]) {
        if !l.Arrive? && d == l.d {
          MoverSound(orgs, s, l);
        } else if d < |s.deliveries| {
          BystanderSound(orgs, s, l, d);
        }
      }
      forall c, d | 0 <= c < d < |s'.deliveries| ensures Apart(s'.deliveries[c], s'.deliveries[d]) {
        assert d < |s.deliveries| ==> Apart(s.deliveries[c], s.deliveries[d]);
      }
    }
  }

  lemma {:induction false} RunSound(orgs: set<nat>, labels: seq<Label>)
    ensures Sound(orgs, Run(orgs, labels))
  {
    if labels != [] {
      RunSound(orgs, labels[..|labels| - 1]);
      StepSound(orgs, Run(orgs, labels[..|labels| - 1]), labels[|labels| - 1]);
    }
  }

  // No charge is recorded twice, and every delivery of a fulfillable checkout that came back without
  // raising, also by way of a conflict and a second look, has its revenue committed.
  lemma NoRevenueLost(orgs: set<nat>, labels: seq<Label>, d: nat)
    ensures var s := Run(orgs, labels);
      && IdsDistinct(s.revenue) && NoRepeats(s.entitlements) && NoRepeats(s.ledger)
      && (d < |s.deliveries| && s.deliveries[d].phase.Returned? && Fulfillable(orgs, s.deliveries[d].event) ==>
            && Fulfilled(s.revenue, s.deliveries[d].event.externalId)
            && (s.deliveries[d].phase.changed ==> exists r | r in s.revenue :: Bills(s.deliveries[d].event, r)))
  {
    RunSound(orgs, labels);
    var s := Run(orgs, labels);
    if d < |s.deliveries| {
      assert DeliverySound(orgs, s, s.deliveries[d]);
      assert Fulfillable(orgs, s.deliveries[d].event) ==>
        Bills(s.deliveries[d].event, RevenueOf(s.deliveries[d].event));
    }
  }

  // The delivery that booked a row: it reported fulfilment, and the row is what its checkout is owed.
  predicate Booked(orgs: set<nat>, d: Delivery, r: Revenue) {
    d.phase == Returned(true) && Fulfillable(orgs, d.event) && Bills(d.event, r)
  }

  ghost predicate RowBooked(orgs: set<nat>, s: State, r: Revenue) {
    exists d | 0 <= d < |s.deliveries| :: Booked(orgs, s.deliveries[d], r)
  }

  lemma BookedStays(orgs: set<nat>, s: State, l: Label, d: nat, r: Revenue)
    requires d < |s.deliveries| && Booked(orgs, s.deliveries[d], r)
    ensures RowBooked(orgs, Step(orgs, s, l), r)
  {
    assert d < |Step(orgs, s, l).deliveries| && Step(orgs, s, l).deliveries[d] == s.deliveries[d];
  }

  lemma CommitBooks(orgs: set<nat>, s: State, d: nat, r: Revenue)
    requires Sound(orgs, s) && Enabled(s, Commit(d)) && s.deliveries[d].phase.writes.revenue == Some(r)
    ensures RowBooked(orgs, Step(orgs, s, Commit(d)), r)
  {
    assert DeliverySound(orgs, s, s.deliveries[d]);
    assert Booked(orgs, Step(orgs, s, Commit(d)).deliveries[d], r);
  }

  lemma NewRow(orgs: set<nat>, s: State, l: Label, r: Revenue)
    requires r in Step(orgs, s, l).revenue && r !in s.revenue
    ensures l.Commit? && Enabled(s, l) && s.deliveries[l.d].phase.writes.revenue == Some(r)
  {
  }

  lemma RowStaysBooked(orgs: set<nat>, s: State, l: Label, r: Revenue)
    requires Sound(orgs, s) && r in Step(orgs, s, l).revenue && (r in s.revenue ==> RowBooked(orgs, s, r))
    ensures RowBooked(orgs, Step(orgs, s, l), r)
  {
    if r in s.revenue {
      var d :| 0 <= d < |s.deliveries| && Booked(orgs, s.deliveries[d], r);
      BookedStays(orgs, s, l, d, r);
    } else {
      NewRow(orgs, s, l, r);
      CommitBooks(orgs, s, l.d, r);
    }
  }

  // Every booked row belongs to a checkout that was delivered and reported fulfilled, with its organization, product
  // and external id, and the amount it carries or else the list price.
  lemma {:induction false} RevenueIsOwed(orgs: set<nat>, labels: seq<Label>, r: Revenue)
    requires r in Run(orgs, labels).revenue
    ensures RowBooked(orgs, Run(orgs, labels), r)
  {
    if labels != [] {
      var front := labels[..|labels| - 1];
      RunSound(orgs, front);
      if r in Run(orgs, front).revenue {
        RevenueIsOwed(orgs, front, r);
      }
      RowStaysBooked(orgs, Run(orgs, front), labels[|labels| - 1], r);
    }
  }

  // ---------------------------------------------------------------------------
  // Conservation
  // ---------------------------------------------------------------------------

  function Amount(): Revenue -> int {
    (r: Revenue) => r.amount
  }

  // What a delivery that answered True was worth.
  function Earned(): Delivery -> int {
    (d: Delivery) =>
      if d.phase == Returned(true) && d.event.Checkout? then Charged(d.event) else 0
  }

  lemma MoveConserves(orgs: set<nat>, s: State, l: Label)
    requires Sound(orgs, s) && !l.Arrive? && Enabled(s, l)
    ensures var d, s' := s.deliveries[l.d], Step(orgs, s, l);
      Sum(Amount(), s'.revenue) - Sum(Amount(), s.revenue) == Earned()(s'.deliveries[l.d]) - Earned()(d)
  {
    assert DeliverySound(orgs, s, s.deliveries[l.d]);
    if l.Commit? && s.deliveries[l.d].phase.writes.revenue.Some? {
      SumAppend(Amount(), s.revenue, s.deliveries[l.d].phase.writes.revenue.value);
    }
  }

  lemma StepConserves(orgs: set<nat>, s: State, l: Label)
    requires Sound(orgs, s) && Sum(Amount(), s.revenue) == Sum(Earned(), s.deliveries)
    ensures Sum(Amount(), Step(orgs, s, l).revenue) == Sum(Earned(), Step(orgs, s, l).deliveries)
  {
    if Enabled(s, l) {
      if l.Arrive? {
        SumAppend(Earned(), s.deliveries, Delivery(l.event, Waiting));
      } else {
        MoveConserves(orgs, s, l);
        SumUpdate(Earned(), s.deliveries, l.d, s.deliveries[l.d].(phase := NextPhase(orgs, s, l)));
      }
    }
  }

  // The revenue table holds exactly what the deliveries that reported fulfilment were worth: nothing
  // is booked without such an answer and nothing is booked twice.
  lemma {:induction false} RevenueConserved(orgs: set<nat>, labels: seq<Label>)
    ensures Sum(Amount(), Run(orgs, labels).revenue) == Sum(Earned(), Run(orgs, labels).deliveries)
  {
    if labels != [] {
      RevenueConserved(orgs, labels[..|labels| - 1]);
      RunSound(orgs, labels[..|labels| - 1]);
      StepConserves(orgs, Run(orgs, labels[..|labels| - 1]), labels[|labels| - 1]);
    }
  }

  // ---------------------------------------------------------------------------
  // Does the provider's retry capture the revenue?
  // ---------------------------------------------------------------------------

  ghost function Serve(orgs: set<nat>, s: State, e: Event): State {
    var d := |s.deliveries|;
    var s3 := ServedToFlush(orgs, s, e);
    var s4 := Step(orgs, s3, Flush(d));
    var s5 := Step(orgs, s4, Recheck(d));
    Step(orgs, s5, Commit(d))
  }

  ghost function ServedToFlush(orgs: set<nat>, s: State, e: Event): State {
    var d := |s.deliveries|;
    var s1 := Step(orgs, s, Arrive(e));
    var s2 := Step(orgs, s1, Check(d, None));
    Step(orgs, Step(orgs, s2, Look(d)), LookAgain(d))
  }

  lemma OnlyLastFlushes(s: State, d: nat, w: Writes)
    requires d + 1 == |s.deliveries| && s.deliveries[d].phase == Prepared(w)
    requires forall q | 0 <= q < d :: s.deliveries[q].Finished()
    ensures Enabled(s, Flush(d))
  {
  }

  lemma {:induction false} CountZero(rows: seq<nat>, org: nat)
    ensures Sum(CountOf(org), rows) >= 0 && (Sum(CountOf(org), rows) == 0 <==> org !in rows)
  {
    if rows != [] {
      CountZero(rows[..|rows| - 1], org);
      assert rows == rows[..|rows| - 1] + [rows[|rows| - 1]];
    }
  }

  // How far a lone checkout gets before it flushes.
  lemma LoneCheckout(orgs: set<nat>, s: State, e: Event)
    requires Fulfillable(orgs, e)
    ensures var s3 := ServedToFlush(orgs, s, e);
      && s3.revenue == s.revenue && s3.entitlements == s.entitlements && s3.ledger == s.ledger
      && s3.deliveries == s.deliveries + [Delivery(e,
           if Fulfilled(s.revenue, e.externalId) then Returned(false)
           else if Sum(CountOf(e.ref.org), s.mirrors) > 1 then Raised
           else Prepared(Writes(Some(RevenueOf(e)), Missing(s.entitlements, e.ref.org), Missing(s.mirrors, e.ref.org),
             LedgerKey(e))))]
  {
  }

  // A checkout redelivered with nothing else in flight gets its revenue recorded, unless the
  // organization has two mirror rows or another event has used up the event id; then every retry fails.
  lemma RetryCapturesExactly(orgs: set<nat>, s: State, e: Event)
    requires Fulfillable(orgs, e) && forall q | 0 <= q < |s.deliveries| :: s.deliveries[q].Finished()
    ensures Fulfilled(Serve(orgs, s, e).revenue, e.externalId) <==>
      || Fulfilled(s.revenue, e.externalId)
      || (Sum(CountOf(e.ref.org), s.mirrors) <= 1 && (LedgerKey(e).None? || LedgerKey(e).value !in s.ledger))
  {
    var d := |s.deliveries|;
    var s3 := ServedToFlush(orgs, s, e);
    LoneCheckout(orgs, s, e);
    if s3.deliveries[d].phase.Prepared? {
      OnlyLastFlushes(s3, d, s3.deliveries[d].phase.writes);
      AddKeepsFulfilled(s.revenue, Some(RevenueOf(e)));
    }
  }

  // ---------------------------------------------------------------------------
  // Two mirrors
  // ---------------------------------------------------------------------------

  lemma Extend(orgs: set<nat>, labels: seq<Label>, l: Label)
    ensures Run(orgs, labels + [l]) == Step(orgs, Run(orgs, labels), l)
  {
    assert (labels + [l])[..|labels|] == labels;
  }

  // One delivery moves and the tables stay as they are.
  lemma Moves(orgs: set<nat>, labels: seq<Label>, s: State, l: Label, next: Phase) returns (all: seq<Label>)
    requires Run(orgs, labels) == s && !l.Arrive? && !l.Commit? && Enabled(s, l) && NextPhase(orgs, s, l) == next
    ensures all == labels + [l] && l.d < |s.deliveries|
    ensures Run(orgs, all) == s.(deliveries := s.deliveries[l.d := s.deliveries[l.d].(phase := next)])
  {
    all := labels + [l];
    Extend(orgs, labels, l);
  }

  predicate AllFinished(s: State) {
    forall q | 0 <= q < |s.deliveries| :: s.deliveries[q].Finished()
  }

  // A first checkout that has looked up both rows, and one that has been committed.
  lemma LooksUp(orgs: set<nat>, labels: seq<Label>, s: State, d: nat) returns (all: seq<Label>)
    requires Run(orgs, labels) == s && d < |s.deliveries| && s.deliveries[d].phase.Waiting? && 0 !in s.mirrors
    requires Fulfillable(orgs, s.deliveries[d].event) && s.deliveries[d].event.ref.org == 0
    requires !Fulfilled(s.revenue, s.deliveries[d].event.externalId)
    ensures var e := s.deliveries[d].event;
      Run(orgs, all) == s.(deliveries := s.deliveries[d := Delivery(e,
        Prepared(Writes(Some(RevenueOf(e)), Missing(s.entitlements, 0), Some(0), LedgerKey(e))))])
  {
    var e := s.deliveries[d].event;
    CountZero(s.mirrors, 0);
    all := Moves(orgs, labels, s, Check(d, None), Checked(0));
    var s1 := s.(deliveries := s.deliveries[d := Delivery(e, Checked(0))]);
    all := Moves(orgs, all, s1, Look(d), Looked(0, Some(0)));
    var s2 := s.(deliveries := s.deliveries[d := Delivery(e, Looked(0, Some(0)))]);
    assert s1.deliveries[d := Delivery(e, Looked(0, Some(0)))] == s2.deliveries;
    var w := Writes(Some(RevenueOf(e)), Missing(s.entitlements, 0), Some(0), LedgerKey(e));
    all := Moves(orgs, all, s2, LookAgain(d), Prepared(w));
    assert s2.deliveries[d := Delivery(e, Prepared(w))] == s.deliveries[d := Delivery(e, Prepared(w))];
  }

  lemma FlushesAndCommits(orgs: set<nat>, labels: seq<Label>, s: State, d: nat, w: Writes) returns (all: seq<Label>)
    requires Run(orgs, labels) == s && d < |s.deliveries| && s.deliveries[d].phase == Prepared(w) && !KeysTaken(s, w)
    requires forall q | 0 <= q < |s.deliveries| :: !s.deliveries[q].phase.Flushed?
    ensures Run(orgs, all) ==
      State(Add(s.revenue, w.revenue), Add(s.entitlements, w.entitlement), Add(s.mirrors, w.mirror),
                                    Add(s.ledger, w.ledger),
                                      s.deliveries[d := s.deliveries[d].(phase := Returned(true))])
  {
    all := Moves(orgs, labels, s, Flush(d), Flushed(w));
    Extend(orgs, all, Commit(d));
    assert s.deliveries[d := s.deliveries[d].(phase := Flushed(w))][d := s.deliveries[d].(phase := Returned(true))]
        == s.deliveries[d := s.deliveries[d].(phase := Returned(true))];
    all := all + [Commit(d)];
  }

  lemma Arrives(orgs: set<nat>, labels: seq<Label>, e: Event) returns (all: seq<Label>)
    ensures all == labels + [Arrive(e)]
    ensures var s := Run(orgs, labels); Run(orgs, all) == s.(deliveries := s.deliveries + [Delivery(e, Waiting)])
  {
    all := labels + [Arrive(e)];
    Extend(orgs, labels, Arrive(e));
  }

  // An update whose status is unknown gives the organization an entitlement and no mirror.
  lemma StatusOnlyRow(orgs: set<nat>, u: Event) returns (labels: seq<Label>)
    requires 0 in orgs && u == Updated(OrgIs(0), None, None, Some(Incomplete), None, None)
    ensures Run(orgs, labels) == State([], [0], [], [], [Delivery(u, Returned(true))])
  {
    labels := Arrives(orgs, [], u);
    labels := Moves(orgs, labels, State([], [], [], [], [Delivery(u, Waiting)]), Check(0, None), Checked(0));
    labels := Moves(orgs, labels, State([], [], [], [], [Delivery(u, Checked(0))]), Look(0), Looked(0, Some(0)));
    var w := Writes(None, Some(0), None, None);
    labels := Moves(orgs, labels, State([], [], [], [], [Delivery(u, Looked(0, Some(0)))]), LookAgain(0), Prepared(w));
    labels := FlushesAndCommits(orgs, labels, State([], [], [], [], [Delivery(u, Prepared(w))]), 0, w);
  }

  // The mirror table has no unique key: when two first checkouts of one organization have both looked before
  // either flushed, both insert a row, one after the other.
  lemma TwoMirrorsReachable(orgs: set<nat>) returns (labels: seq<Label>)
    requires 0 in orgs
    ensures Run(orgs, labels).mirrors == [0, 0] && AllFinished(Run(orgs, labels))
  {
    var u := Updated(OrgIs(0), None, None, Some(Incomplete), None, None);
    var a, b := Checkout(OrgIs(0), Sprint, None, "a", None, None), Checkout(OrgIs(0), Sprint, None, "b", None, None);
    var wa, wb := Writes(Some(RevenueOf(a)), None, Some(0), None), Writes(Some(RevenueOf(b)), None, Some(0), None);
    var first := Delivery(u, Returned(true));
    labels := StatusOnlyRow(orgs, u);
    labels := Arrives(orgs, labels, a);
    labels := Arrives(orgs, labels, b);
    var s := State([], [0], [], [], [first, Delivery(a, Waiting), Delivery(b, Waiting)]);
    labels := LooksUp(orgs, labels, s, 1);
    s := s.(deliveries := [first, Delivery(a, Prepared(wa)), Delivery(b, Waiting)]);
    labels := LooksUp(orgs, labels, s, 2);
    s := s.(deliveries := [first, Delivery(a, Prepared(wa)), Delivery(b, Prepared(wb))]);
    labels := FlushesAndCommits(orgs, labels, s, 1, wa);
    s := State([RevenueOf(a)], [0], [0], [], [first, Delivery(a, Returned(true)), Delivery(b, Prepared(wb))]);
    labels := FlushesAndCommits(orgs, labels, s, 2, wb);
  }
}
