/**
 Redeliveries of billing events, apps/api/captureos/services/billing.py: the tables against a fold over the events
 with redeliveries removed, which is told by external id and event id alone. Exactly when the two agree.
 */
module BillingRedelivery {
  import opened Wrappers
  import opened BillingEvents
  import opened BillingFold

  // The same checkout by its external id, or the same event by its event id.
  predicate Repeats(a: Event, b: Event) {
    (a.Checkout? && b.Checkout? && a.externalId == b.externalId) || (LedgerKey(a).Some? && LedgerKey(a) == LedgerKey(b))
  }

  // Each event that repeats no earlier one.
  function FirstDeliveries(events: seq<Event>): seq<Event> {
    if events == [] then []
    else
      var e, earlier := events[|events| - 1], events[..|events| - 1];
      FirstDeliveries(earlier) + if exists a | a in earlier :: Repeats(a, e) then [] else [e]
  }

  // The same, told from what is kept so far.
  function Kept(events: seq<Event>): seq<Event> {
    if events == [] then []
    else
      var e, kept := events[|events| - 1], Kept(events[..|events| - 1]);
      if exists a | a in kept :: Repeats(a, e) then kept else kept + [e]
  }

  // Not refused whatever the tables hold.
  predicate Acceptable(orgs: set<nat>, e: Event) {
    if e.Checkout? then Fulfillable(orgs, e)
    else match e.ref
      case OrgIs(o) => o in orgs
      case BadOrg => false
      case NoOrg => e.subId.Some? && e.subId.value != ""
  }

  function Offered(orgs: set<nat>, events: seq<Event>): seq<Event> {
    if events == [] then []
    else
      var e, earlier := events[|events| - 1], events[..|events| - 1];
      Offered(orgs, earlier) + if Acceptable(orgs, e) then [e] else []
  }

  // The acceptable events without redeliveries.
  function Firsts(orgs: set<nat>, events: seq<Event>): seq<Event> {
    Kept(Offered(orgs, events))
  }

  predicate IsFirst(orgs: set<nat>, earlier: seq<Event>, e: Event) {
    Acceptable(orgs, e) && forall a | a in Firsts(orgs, earlier) :: !Repeats(a, e)
  }

  lemma FirstsMore(orgs: set<nat>, events: seq<Event>, e: Event)
    ensures Firsts(orgs, events + [e])
      == if IsFirst(orgs, events, e) then Firsts(orgs, events) + [e] else Firsts(orgs, events)
  {
    var offered := Offered(orgs, events);
    assert (events + [e])[..|events|] == events;
    if Acceptable(orgs, e) {
      assert (offered + [e])[..|offered|] == offered && Offered(orgs, events + [e]) == offered + [e];
    } else {
      assert Offered(orgs, events + [e]) == offered;
    }
  }

  // What repeats an event repeats one that is kept.
  lemma {:induction false} KeptStandForAll(events: seq<Event>, e: Event)
    requires OneEventPerId(events + [e])
    ensures (exists a | a in events :: Repeats(a, e)) <==> exists a | a in Kept(events) :: Repeats(a, e)
  {
    if events != [] {
      var n := |events| - 1;
      var last, earlier := events[n], events[..n];
      assert events == earlier + [last];
      assert forall x | x in earlier + [last] :: x in events + [e];
      assert forall x | x in earlier + [e] :: x in events + [e];
      KeptStandForAll(earlier, last);
      KeptStandForAll(earlier, e);
      if Repeats(last, e) && exists a | a in earlier :: Repeats(a, last) {
        var a :| a in earlier && Repeats(a, last);
        assert a in events + [e] && last in events + [e] && e in events + [e];
        assert Repeats(a, e);
      }
    }
  }

  // As long as an event id means one event, it is enough to look for an earlier delivery, kept or not.
  lemma {:induction false} KeptAreFirst(events: seq<Event>)
    requires OneEventPerId(events)
    ensures Kept(events) == FirstDeliveries(events)
  {
    if events != [] {
      var earlier, e := events[..|events| - 1], events[|events| - 1];
      assert events == earlier + [e];
      FrontOneEvent(earlier, [e]);
      KeptAreFirst(earlier);
      KeptStandForAll(earlier, e);
    }
  }

  lemma FrontOneEvent(front: seq<Event>, back: seq<Event>)
    requires OneEventPerId(front + back)
    ensures OneEventPerId(front)
  {
    forall a, b | a in front && b in front && LedgerKey(a).Some? && LedgerKey(a) == LedgerKey(b) ensures a == b {
      assert a in front + back && b in front + back;
    }
  }

  // ---------------------------------------------------------------------------
  // When first deliveries are what takes effect
  // ---------------------------------------------------------------------------

  // The event leads to a known organization.
  ghost predicate Leads(orgs: set<nat>, entitlements: map<nat, Entitlement>, e: Event) {
    var to := Resolve(entitlements, e.ref, e.subId);
    to.To? && to.org in orgs
  }

  // Each first delivery that names only a subscription finds it, on the fold of the first deliveries before it, with
  // exactly one organization.
  ghost predicate FirstsLead(orgs: set<nat>, events: seq<Event>) {
    forall k | 0 <= k < |events| && events[k].ref.NoOrg? && IsFirst(orgs, events[..k], events[k]) ::
      Leads(orgs, PlainFold(Firsts(orgs, events[..k])), events[k])
  }

  lemma SeenExactly(orgs: set<nat>, events: seq<Event>, e: Event)
    requires Essential(orgs, events) == Firsts(orgs, events)
    ensures (exists a | a in Firsts(orgs, events) :: Repeats(a, e))
      <==> (e.Checkout? && Fulfilled(Run(orgs, events).revenue, e.externalId)) || InLedger(Run(orgs, events), e)
  {
    EssentialKeys(orgs, events);
  }

  lemma FateByKeys(orgs: set<nat>, t: Tables, e: Event)
    ensures FateOf(orgs, t, e).Applies? <==>
      && Acceptable(orgs, e) && (e.ref.NoOrg? ==> Leads(orgs, t.entitlements, e))
      && !(e.Checkout? && Fulfilled(t.revenue, e.externalId)) && !InLedger(t, e)
  {
  }

  lemma FirstTakesEffect(orgs: set<nat>, events: seq<Event>, e: Event)
    requires Essential(orgs, events) == Firsts(orgs, events)
    ensures FateOf(orgs, Run(orgs, events), e).Applies?
      <==> IsFirst(orgs, events, e) && (e.ref.NoOrg? ==> Leads(orgs, PlainFold(Firsts(orgs, events)), e))
  {
    var t := Run(orgs, events);
    SeenExactly(orgs, events, e);
    FateByKeys(orgs, t, e);
    assert t.entitlements == PlainFold(Firsts(orgs, events)) by {
      TablesRefineFold(orgs, events);
    }
  }

  lemma {:induction false} LeadingTakeEffect(orgs: set<nat>, events: seq<Event>)
    requires FirstsLead(orgs, events)
    ensures Essential(orgs, events) == Firsts(orgs, events)
  {
    if events != [] {
      var n := |events| - 1;
      var earlier, e := events[..n], events[n];
      assert events == earlier + [e];
      LeadBefore(orgs, events, n);
      LeadingTakeEffect(orgs, earlier);
      FirstTakesEffect(orgs, earlier, e);
      FirstsMore(orgs, earlier, e);
    }
  }

  lemma LeadBefore(orgs: set<nat>, events: seq<Event>, n: nat)
    requires FirstsLead(orgs, events) && n <= |events|
    ensures FirstsLead(orgs, events[..n])
  {
    forall k | 0 <= k < n && events[k].ref.NoOrg? && IsFirst(orgs, events[..n][..k], events[..n][k])
      ensures Leads(orgs, PlainFold(Firsts(orgs, events[..n][..k])), events[..n][k])
    {
      assert events[..n][..k] == events[..k];
    }
  }

  // An event refused by these tables is not the next to take effect, however often it comes back.
  lemma {:induction false} RefusedIsNotNext(orgs: set<nat>, events: seq<Event>, u: Event, more: seq<Event>)
    requires !FateOf(orgs, Run(orgs, events), u).Applies?
    ensures var was, now := Essential(orgs, events), Essential(orgs, events + more);
      now == was || (|now| > |was| && now[|was|] != u)
  {
    if more == [] {
      assert events + more == events;
    } else {
      var rest := more[..|more| - 1];
      assert (events + more)[..|events + more| - 1] == events + rest;
      RefusedIsNotNext(orgs, events, u, rest);
      TablesRefineFold(orgs, events);
      TablesRefineFold(orgs, events + rest);
    }
  }

  lemma {:induction false} FirstsStay(orgs: set<nat>, events: seq<Event>, more: seq<Event>)
    ensures Firsts(orgs, events) <= Firsts(orgs, events + more)
  {
    if more == [] {
      assert events + more == events;
    } else {
      var rest := more[..|more| - 1];
      FirstsStay(orgs, events, rest);
      assert events + more == events + rest + [more[|more| - 1]];
      FirstsMore(orgs, events + rest, more[|more| - 1]);
    }
  }

  // Refused, a first delivery is missing among what takes effect.
  lemma RefusedIsMissing(orgs: set<nat>, earlier: seq<Event>, u: Event, more: seq<Event>)
    requires Essential(orgs, earlier) == Firsts(orgs, earlier) && IsFirst(orgs, earlier, u)
    requires !FateOf(orgs, Run(orgs, earlier), u).Applies?
    ensures Essential(orgs, earlier + ([u] + more)) != Firsts(orgs, (earlier + [u]) + more)
  {
    var was := Essential(orgs, earlier);
    RefusedIsNotNext(orgs, earlier, u, [u] + more);
    FirstsMore(orgs, earlier, u);
    FirstsStay(orgs, earlier + [u], more);
    assert (was + [u])[|was|] == u;
  }

  // So it leads to an organization.
  lemma FirstLeads(orgs: set<nat>, all: seq<Event>, earlier: seq<Event>, u: Event, more: seq<Event>)
    requires Essential(orgs, all) == Firsts(orgs, all) && all == earlier + ([u] + more) == (earlier + [u]) + more
    requires FirstsLead(orgs, earlier) && IsFirst(orgs, earlier, u)
    ensures u.ref.NoOrg? ==> Leads(orgs, PlainFold(Firsts(orgs, earlier)), u)
  {
    LeadingTakeEffect(orgs, earlier);
    FirstTakesEffect(orgs, earlier, u);
    if !FateOf(orgs, Run(orgs, earlier), u).Applies? {
      RefusedIsMissing(orgs, earlier, u, more);
    }
  }

  lemma LeadMore(orgs: set<nat>, earlier: seq<Event>, u: Event)
    requires FirstsLead(orgs, earlier)
    requires u.ref.NoOrg? && IsFirst(orgs, earlier, u) ==> Leads(orgs, PlainFold(Firsts(orgs, earlier)), u)
    ensures FirstsLead(orgs, earlier + [u])
  {
    var all := earlier + [u];
    forall k | 0 <= k < |all| && all[k].ref.NoOrg? && IsFirst(orgs, all[..k], all[k])
      ensures Leads(orgs, PlainFold(Firsts(orgs, all[..k])), all[k])
    {
      assert all[..k] == earlier[..k] && (k == |earlier| ==> earlier[..k] == earlier);
    }
  }

  lemma {:induction false} EffectiveLead(orgs: set<nat>, all: seq<Event>, events: seq<Event>, more: seq<Event>)
    requires Essential(orgs, all) == Firsts(orgs, all) && all == events + more
    ensures FirstsLead(orgs, events)
  {
    if events != [] {
      var earlier, u := events[..|events| - 1], events[|events| - 1];
      assert events == earlier + [u] && all == earlier + ([u] + more) == (earlier + [u]) + more;
      EffectiveLead(orgs, all, earlier, [u] + more);
      if IsFirst(orgs, earlier, u) {
        FirstLeads(orgs, all, earlier, u, more);
      }
      LeadMore(orgs, earlier, u);
    }
  }

  // The deliveries that take effect are the acceptable events without redeliveries if and only if each first delivery
  // that names only a subscription leads to its organization.
  lemma FirstsTakeEffectExactly(orgs: set<nat>, events: seq<Event>)
    ensures Essential(orgs, events) == Firsts(orgs, events) <==> FirstsLead(orgs, events)
  {
    assert events + [] == events;
    if FirstsLead(orgs, events) {
      LeadingTakeEffect(orgs, events);
    } else if Essential(orgs, events) == Firsts(orgs, events) {
      EffectiveLead(orgs, events, events, []);
    }
  }

  lemma {:induction false} AllOffered(orgs: set<nat>, events: seq<Event>)
    requires forall e | e in events :: Acceptable(orgs, e)
    ensures Offered(orgs, events) == events
  {
    if events != [] {
      var earlier, e := events[..|events| - 1], events[|events| - 1];
      assert events == earlier + [e];
      AllOffered(orgs, earlier);
    }
  }

  // When every event names an existing organization, and no checkout is refused, the tables are those of the events
  // with redeliveries removed, and the entitlements are their plain fold.
  lemma TablesOfFirstDeliveries(orgs: set<nat>, events: seq<Event>)
    requires forall e | e in events :: Acceptable(orgs, e) && !e.ref.NoOrg?
    ensures Essential(orgs, events) == Kept(events) && Run(orgs, Kept(events)) == Run(orgs, events)
    ensures Run(orgs, events).entitlements == PlainFold(Kept(events))
    ensures OneEventPerId(events) ==> Kept(events) == FirstDeliveries(events)
  {
    AllOffered(orgs, events);
    FirstsTakeEffectExactly(orgs, events);
    TablesRefineFold(orgs, events);
    if OneEventPerId(events) {
      KeptAreFirst(events);
    }
  }

  lemma OneHolder(entitlements: map<nat, Entitlement>, org: nat, subId: string)
    requires subId != "" && Holders(entitlements, subId) == {org}
    ensures Resolve(entitlements, NoOrg, Some(subId)) == To(org)
  {
    assert forall o | o in Holders(entitlements, subId) :: o == org;
  }

  const LATE := Updated(NoOrg, Some("s"), Some("e"), Some(PastDue), None, None)
  const FIRST := Checkout(OrgIs(0), Sprint, None, "x", Some("s"), None)

  lemma OneMoreFirst(events: seq<Event>, e: Event)
    ensures FirstDeliveries(events + [e])
      == FirstDeliveries(events) + if exists a | a in events :: Repeats(a, e) then [] else [e]
  {
    assert (events + [e])[..|events|] == events;
  }

  lemma CheckoutAfterNotice()
    ensures var t := Run({0}, [LATE, FIRST]);
      && t.ledger == [] && Essential({0}, [LATE, FIRST]) == [FIRST]
      && Resolve(t.entitlements, NoOrg, Some("s")) == To(0)
      && t.entitlements == map[0 := Entitlement(Sprint, Active, Some("s"), None)]
  {
    assert [] + [LATE] == [LATE] && [LATE] + [FIRST] == [LATE, FIRST];
    assert Holders(map[], "s") == {};
    OneMore({0}, [], LATE);
    OneMore({0}, [LATE], FIRST);
    var t := Run({0}, [LATE, FIRST]);
    assert Holders(t.entitlements, "s") == {0};
    OneHolder(t.entitlements, 0, "s");
  }

  lemma NoticeAfterCheckout(t: Tables)
    requires t.ledger == [] && Resolve(t.entitlements, NoOrg, Some("s")) == To(0)
    ensures FateOf({0}, t, LATE) == Applies(0) && !Covers(Get(Apply({0}, t, LATE).entitlements, 0), Package)
  {
  }

  lemma FirstsOfThree()
    ensures FirstDeliveries([LATE, FIRST, LATE]) == [LATE, FIRST]
  {
    assert [] + [LATE] == [LATE] && [LATE] + [FIRST] == [LATE, FIRST];
    assert [LATE, FIRST] + [LATE] == [LATE, FIRST, LATE];
    OneMoreFirst([], LATE);
    OneMoreFirst([LATE], FIRST);
    OneMoreFirst([LATE, FIRST], LATE);
    assert LATE in [LATE, FIRST] && Repeats(LATE, LATE);
  }

  lemma FoldOfTwo()
    ensures Covers(Get(PlainFold([LATE, FIRST]), 0), Package)
  {
    assert [LATE, FIRST][..1] == [LATE];
  }

  lemma EffectOfThree()
    ensures var events := [LATE, FIRST, LATE];
      Essential({0}, events) == [FIRST, LATE] && !Covers(Get(Run({0}, events).entitlements, 0), Package)
  {
    CheckoutAfterNotice();
    NoticeAfterCheckout(Run({0}, [LATE, FIRST]));
    OneMore({0}, [LATE, FIRST], LATE);
    assert [LATE, FIRST] + [LATE] == [LATE, FIRST, LATE] && [FIRST] + [LATE] == [FIRST, LATE];
  }

  // A past-due notice that comes before the checkout is refused without a trace, and its redelivery takes effect: the
  // gate is closed, where the fold of the first deliveries has it open.
  lemma RefusedThenRedelivered()
    ensures var events := [LATE, FIRST, LATE];
      && OneEventPerId(events) && FirstDeliveries(events) == [LATE, FIRST] && Essential({0}, events) == [FIRST, LATE]
      && Covers(Get(PlainFold(FirstDeliveries(events)), 0), Package)
      && !Covers(Get(Run({0}, events).entitlements, 0), Package)
  {
    FirstsOfThree();
    FoldOfTwo();
    EffectOfThree();
    assert LedgerKey(FIRST).None?;
  }
}
