/**
 Deliveries that do not overlap, apps/api/captureos/services/billing.py: every history of the handlers applied one
 event after another is a run of the racing ones, with the same tables and the same answers.
 */
module BillingSerial {
  import opened Wrappers
  import opened Sums
  import opened BillingEvents
  import opened BillingRace
  import Fold = BillingFold

  // The tables of a run, as far as racing deliveries contend for them, with nothing in flight.
  ghost predicate Holds(t: Fold.Tables, s: State) {
    && s.revenue == t.revenue && s.ledger == t.ledger
    && (forall o :: o in s.entitlements <==> o in t.entitlements)
    && NoRepeats(s.mirrors) && AllFinished(s)
  }

  // True, False or an exception.
  function AnswerOf(fate: Fold.Fate): Phase {
    match fate
    case Applies(_) => Returned(true)
    case Ignored => Returned(false)
    case Fails => Raised
  }

  ghost function ResolvedOf(t: Fold.Tables, e: Event): Option<nat> {
    var r := Fold.Resolve(t.entitlements, e.ref, e.subId);
    if r.To? then Some(r.org) else None
  }

  lemma {:induction false} OneRowEach(rows: seq<nat>, org: nat)
    requires NoRepeats(rows)
    ensures Sum(CountOf(org), rows) <= 1
  {
    if rows != [] {
      var front, last := rows[..|rows| - 1], rows[|rows| - 1];
      OneRowEach(front, org);
      CountZero(front, org);
      assert last == org ==> org !in front;
    }
  }

  // What the first query of the handler makes of an event, in terms of its fate.
  lemma CheckedByFate(orgs: set<nat>, t: Fold.Tables, s: State, e: Event)
    requires s.revenue == t.revenue && s.ledger == t.ledger
    requires e.Checkout? || !Fold.Resolve(t.entitlements, e.ref, e.subId).Ambiguous?
    ensures var fate, next := Fold.FateOf(orgs, t, e), AfterCheck(orgs, s, e, ResolvedOf(t, e));
      match next
      case Checked(o) =>
        && !(e.Checkout? && Fulfilled(s.revenue, e.externalId))
        && (e.Checkout? ==> Fulfillable(orgs, e) && o == e.ref.org)
        && fate == (if LedgerKey(e).Some? && LedgerKey(e).value in s.ledger then Fold.Fails else Fold.Applies(o))
        && (fate.Fails? ==> e.Checkout?)
      case _ => next == AnswerOf(fate) && !fate.Applies?
  {
  }

  // What a lone delivery inserts.
  function Inserts(s: State, e: Event, o: nat): Writes {
    Writes(if e.Checkout? && e.ref.OrgIs? then Some(RevenueOf(e)) else None, Missing(s.entitlements, o),
           MissingMirror(s, e, o), LedgerKey(e))
  }

  lemma LooksUpBoth(orgs: set<nat>, labels: seq<Label>, s: State, d: nat, o: nat) returns (all: seq<Label>)
    requires Run(orgs, labels) == s && d < |s.deliveries| && s.deliveries[d].phase == Checked(o) && NoRepeats(s.mirrors)
    ensures var e := s.deliveries[d].event;
      Run(orgs, all) == s.(deliveries := s.deliveries[d := Delivery(e, Prepared(Inserts(s, e, o)))])
  {
    var e := s.deliveries[d].event;
    OneRowEach(s.mirrors, o);
    var found := if e.Checkout? then MissingMirror(s, e, o) else Missing(s.entitlements, o);
    all := Moves(orgs, labels, s, Look(d), Looked(o, found));
    var s1 := s.(deliveries := s.deliveries[d := Delivery(e, Looked(o, found))]);
    all := Moves(orgs, all, s1, LookAgain(d), Prepared(Inserts(s, e, o)));
    assert s1.deliveries[d := Delivery(e, Prepared(Inserts(s, e, o)))]
        == s.deliveries[d := Delivery(e, Prepared(Inserts(s, e, o)))];
  }

  // The event id was used by another event: the flush fails, and the second look finds no revenue.
  lemma FlushFails(orgs: set<nat>, labels: seq<Label>, s: State, d: nat, w: Writes) returns (all: seq<Label>)
    requires Run(orgs, labels) == s && d < |s.deliveries| && s.deliveries[d].phase == Prepared(w) && KeysTaken(s, w)
    requires forall q | 0 <= q < |s.deliveries| :: !s.deliveries[q].phase.Flushed?
    requires var e := s.deliveries[d].event; e.Checkout? && !Fulfilled(s.revenue, e.externalId)
    ensures Run(orgs, all) == s.(deliveries := s.deliveries[d := s.deliveries[d].(phase := Raised)])
  {
    var e := s.deliveries[d].event;
    all := Moves(orgs, labels, s, Flush(d), Conflicted);
    var s1 := s.(deliveries := s.deliveries[d := Delivery(e, Conflicted)]);
    all := Moves(orgs, all, s1, Recheck(d), Raised);
    assert s1.deliveries[d := Delivery(e, Raised)] == s.deliveries[d := Delivery(e, Raised)];
  }

  lemma KeysFree(s: State, e: Event, o: nat)
    requires !(e.Checkout? && Fulfilled(s.revenue, e.externalId))
    ensures KeysTaken(s, Inserts(s, e, o)) <==> LedgerKey(e).Some? && LedgerKey(e).value in s.ledger
  {
  }

  lemma InsertsApply(orgs: set<nat>, t: Fold.Tables, s: State, e: Event, o: nat, deliveries: seq<Delivery>)
    requires Holds(t, s) && Fold.FateOf(orgs, t, e) == Fold.Applies(o) && forall d | d in deliveries :: d.Finished()
    ensures var w := Inserts(s, e, o);
      Holds(Fold.Apply(orgs, t, e), State(Add(s.revenue, w.revenue), Add(s.entitlements, w.entitlement),
        Add(s.mirrors, w.mirror), Add(s.ledger, w.ledger), deliveries))
  {
  }

  lemma EntersAndChecks(orgs: set<nat>, labels: seq<Label>, t: Fold.Tables, e: Event) returns (all: seq<Label>)
    requires Holds(t, Run(orgs, labels))
    requires e.Checkout? || !Fold.Resolve(t.entitlements, e.ref, e.subId).Ambiguous?
    ensures var s := Run(orgs, labels);
      Run(orgs, all) == s.(deliveries := s.deliveries + [Delivery(e, AfterCheck(orgs, s, e, ResolvedOf(t, e)))])
  {
    var s, next := Run(orgs, labels), AfterCheck(orgs, Run(orgs, labels), e, ResolvedOf(t, e));
    all := Arrives(orgs, labels, e);
    var s1 := s.(deliveries := s.deliveries + [Delivery(e, Waiting)]);
    all := Moves(orgs, all, s1, Check(|s.deliveries|, ResolvedOf(t, e)), next);
    assert s1.deliveries[|s.deliveries| := Delivery(e, next)] == s.deliveries + [Delivery(e, next)];
  }

  lemma EntersAndRaises(orgs: set<nat>, labels: seq<Label>, e: Event) returns (all: seq<Label>)
    ensures var s := Run(orgs, labels); Run(orgs, all) == s.(deliveries := s.deliveries + [Delivery(e, Raised)])
  {
    var s := Run(orgs, labels);
    all := Arrives(orgs, labels, e);
    var s1 := s.(deliveries := s.deliveries + [Delivery(e, Waiting)]);
    all := Moves(orgs, all, s1, Fail(|s.deliveries|), Raised);
    assert s1.deliveries[|s.deliveries| := Delivery(e, Raised)] == s.deliveries + [Delivery(e, Raised)];
  }

  // From the first query on.
  lemma PassesCheck(orgs: set<nat>, labels: seq<Label>, t: Fold.Tables, s: State, e: Event, o: nat)
      returns (all: seq<Label>)
    requires Holds(t, s) && AfterCheck(orgs, s, e, ResolvedOf(t, e)) == Checked(o)
    requires e.Checkout? || !Fold.Resolve(t.entitlements, e.ref, e.subId).Ambiguous?
    requires Run(orgs, labels) == s.(deliveries := s.deliveries + [Delivery(e, Checked(o))])
    ensures Holds(Fold.Apply(orgs, t, e), Run(orgs, all))
    ensures Run(orgs, all).deliveries == s.deliveries + [Delivery(e, AnswerOf(Fold.FateOf(orgs, t, e)))]
  {
    CheckedByFate(orgs, t, s, e);
    var d, fate, w := |s.deliveries|, Fold.FateOf(orgs, t, e), Inserts(s, e, o);
    var s1 := s.(deliveries := s.deliveries + [Delivery(e, Checked(o))]);
    all := LooksUpBoth(orgs, labels, s1, d, o);
    var s2 := s.(deliveries := s.deliveries + [Delivery(e, Prepared(w))]);
    assert s1.deliveries[d := Delivery(e, Prepared(w))] == s2.deliveries;
    KeysFree(s, e, o);
    assert s2.deliveries[d := Delivery(e, AnswerOf(fate))] == s.deliveries + [Delivery(e, AnswerOf(fate))];
    if fate.Fails? {
      all := FlushFails(orgs, all, s2, d, w);
    } else {
      all := FlushesAndCommits(orgs, all, s2, d, w);
      InsertsApply(orgs, t, s, e, o, s.deliveries + [Delivery(e, Returned(true))]);
    }
  }

  lemma ServedAlone(orgs: set<nat>, labels: seq<Label>, t: Fold.Tables, e: Event) returns (all: seq<Label>)
    requires Holds(t, Run(orgs, labels))
    ensures Holds(Fold.Apply(orgs, t, e), Run(orgs, all))
    ensures Run(orgs, all).deliveries ==
      Run(orgs, labels).deliveries + [Delivery(e, AnswerOf(Fold.FateOf(orgs, t, e)))]
  {
    var s := Run(orgs, labels);
    if !e.Checkout? && Fold.Resolve(t.entitlements, e.ref, e.subId).Ambiguous? {
      all := EntersAndRaises(orgs, labels, e);
    } else {
      CheckedByFate(orgs, t, s, e);
      all := EntersAndChecks(orgs, labels, t, e);
      var next := AfterCheck(orgs, s, e, ResolvedOf(t, e));
      if next.Checked? {
        all := PassesCheck(orgs, all, t, s, e, next.org);
      }
    }
  }

  // Each delivery was answered as its handler does on the tables as they were.
  ghost predicate Answered(orgs: set<nat>, events: seq<Event>, deliveries: seq<Delivery>) {
    |deliveries| == |events| && forall i | 0 <= i < |events| ::
      deliveries[i] == Delivery(events[i], AnswerOf(Fold.FateOf(orgs, Fold.Run(orgs, events[..i]), events[i])))
  }

  lemma AnsweredMore(orgs: set<nat>, events: seq<Event>, e: Event, deliveries: seq<Delivery>)
    requires Answered(orgs, events, deliveries)
    ensures Answered(orgs, events + [e],
                     deliveries + [Delivery(e, AnswerOf(Fold.FateOf(orgs, Fold.Run(orgs, events), e)))])
  {
    var all := events + [e];
    assert all[..|events|] == events;
    forall i | 0 <= i < |events| ensures all[..i] == events[..i] {}
  }

  // Whatever the events, delivering them one after another is one of the runs of the racing handlers: it books the
  // same revenue, marks the same event ids, gives the same organizations an entitlement, and answers each delivery
  // True, False or with an exception as the handler does.
  lemma {:induction false} SerialIsARun(orgs: set<nat>, events: seq<Event>) returns (labels: seq<Label>)
    ensures Holds(Fold.Run(orgs, events), Run(orgs, labels))
    ensures Answered(orgs, events, Run(orgs, labels).deliveries)
  {
    labels := [];
    if events != [] {
      var front, e := events[..|events| - 1], events[|events| - 1];
      var before := SerialIsARun(orgs, front);
      labels := ServedAlone(orgs, before, Fold.Run(orgs, front), e);
      AnsweredMore(orgs, front, e, Run(orgs, before).deliveries);
      assert events == front + [e];
    }
  }
}
