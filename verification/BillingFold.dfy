/**
 Billing events applied one after another, apps/api/captureos/services/billing.py: the tables after any
 event sequence are a fold over the events that took effect, and the premium gate reads the fold.
 */
module BillingFold {
  import opened Wrappers
  import opened BillingEvents

  datatype Entitlement = Entitlement(tier: Tier, status: Status, sub: Option<string>, periodEnd: Option<int>)

  datatype Tables = Tables(revenue: seq<Revenue>, ledger: seq<string>, entitlements: map<nat, Entitlement>)

  const EMPTY := Tables([], [], map[])

  // What an event that takes effect says about an entitlement; None leaves the column as it is.
  datatype Effect = Effect(status: Status, tier: Option<Tier>, sub: Option<string>, periodEnd: Option<int>)

  function EffectOf(e: Event): Effect {
    match e
    case Checkout(_, product, _, _, subId, _) => Effect(Active, Some(product), subId, None)
    case Updated(_, subId, _, status, tier, periodEnd) =>
      Effect(if status.Some? then status.value else Incomplete, tier, subId, periodEnd)
    case Deleted(_, subId, _) => Effect(Canceled, None, subId, None)
    case PaymentFailed(_, _, _) => Effect(PastDue, None, None, None)
  }

  function Upsert(old_: Option<Entitlement>, f: Effect): Entitlement {
    Entitlement(
      if f.tier.Some? then f.tier.value else if old_.Some? then old_.value.tier else Audit,
      f.status,
      if f.sub.Some? then f.sub else if old_.Some? then old_.value.sub else None,
      if f.periodEnd.Some? then f.periodEnd else if old_.Some? then old_.value.periodEnd else None)
  }

  function Get(entitlements: map<nat, Entitlement>, org: nat): Option<Entitlement> {
    if org in entitlements then Some(entitlements[org]) else None
  }

  function Holders(entitlements: map<nat, Entitlement>, subId: string): set<nat> {
    set o | o in entitlements && entitlements[o].sub == Some(subId)
  }

  datatype Resolution = To(org: nat) | Nobody | Ambiguous

  ghost function Resolve(entitlements: map<nat, Entitlement>, ref: OrgRef, subId: Option<string>): Resolution {
    match ref
    case OrgIs(o) => To(o)
    case BadOrg => Nobody
    case NoOrg =>
      if subId.None? || subId.value == "" then Nobody
      else
        var holders := Holders(entitlements, subId.value);
        if |holders| == 0 then Nobody
        else if |holders| > 1 then Ambiguous
        else var o :| o in holders; To(o)
  }

  datatype Fate = Applies(org: nat) | Ignored | Fails

  predicate Fulfilled(revenue: seq<Revenue>, id: string) {
    exists r | r in revenue :: r.externalId == id
  }

  predicate InLedger(t: Tables, e: Event) {
    LedgerKey(e).Some? && LedgerKey(e).value in t.ledger
  }

  // What becomes of an event: it is applied to an organization, answered False, or raises.
  ghost function FateOf(orgs: set<nat>, t: Tables, e: Event): Fate {
    if e.Checkout? then
      if e.product.OtherTier? then Ignored
      else if !e.ref.OrgIs? then Fails
      else if e.ref.org !in orgs || Fulfilled(t.revenue, e.externalId) then Ignored
      else if InLedger(t, e) then Fails
      else Applies(e.ref.org)
    else match Resolve(t.entitlements, e.ref, e.subId)
      case Nobody => Ignored
      case Ambiguous => Fails
      case To(o) => if o !in orgs || InLedger(t, e) then Ignored else Applies(o)
  }

  ghost function Apply(orgs: set<nat>, t: Tables, e: Event): Tables {
    match FateOf(orgs, t, e)
    case Applies(o) =>
      Tables(if e.Checkout? then t.revenue + [RevenueOf(e)] else t.revenue,
             if LedgerKey(e).Some? then t.ledger + [LedgerKey(e).value] else t.ledger,
             t.entitlements[o := Upsert(Get(t.entitlements, o), EffectOf(e))])
    case _ => t
  }

  ghost function Run(orgs: set<nat>, events: seq<Event>): Tables {
    if events == [] then EMPTY
    else Apply(orgs, Run(orgs, events[..|events| - 1]), events[|events| - 1])
  }

  // ---------------------------------------------------------------------------
  // The handlers
  // ---------------------------------------------------------------------------

  class Billing {
    const orgs: set<nat>
    var revenue: seq<Revenue>
    var ledger: seq<string>
    var entitlements: map<nat, Entitlement>

    ghost function State(): Tables
      reads this
    {
      Tables(revenue, ledger, entitlements)
    }

    constructor (orgs: set<nat>)
      ensures State() == EMPTY && this.orgs == orgs
    {
      this.orgs, revenue, ledger, entitlements := orgs, [], [], map[];
    }

    method ResolveOrgId(ref: OrgRef, subId: Option<string>) returns (r: Resolution)
      ensures r == Resolve(entitlements, ref, subId)
    {
      match ref
      case OrgIs(o) => r := To(o);
      case BadOrg => r := Nobody;
      case NoOrg =>
        if subId.None? || subId.value == "" {
          return Nobody;
        }
        var holders := Holders(entitlements, subId.value);
        if holders == {} {
          return Nobody;
        }
        var o :| o in holders;
        r := if holders == {o} then To(o) else Ambiguous;
        if holders == {o} {
          assert |holders| == 1;
        } else {
          assert |holders - {o}| == |holders| - 1;
          assert holders - {o} != {};
        }
    }

    method UpsertEntitlement(org: nat, f: Effect)
      modifies this`entitlements
      ensures entitlements == old(entitlements)[org := Upsert(Get(old(entitlements), org), f)]
    {
      var row := if org in entitlements then entitlements[org]
                 else Entitlement(if f.tier.Some? then f.tier.value else Audit, f.status, None, None);
      if f.tier.Some? {
        row := row.(tier := f.tier.value);
      }
      row := row.(status := f.status);
      if f.sub.Some? {
        row := row.(sub := f.sub);
      }
      if f.periodEnd.Some? {
        row := row.(periodEnd := f.periodEnd);
      }
      entitlements := entitlements[org := row];
    }

    method ApplyWebhook(e: Event) returns (fate: Fate)
      requires e.Checkout?
      modifies this`revenue, this`ledger, this`entitlements
      ensures fate == FateOf(orgs, old(State()), e) && State() == Apply(orgs, old(State()), e)
      ensures fate.Applies? ==> exists r :: Bills(e, r) && revenue == old(revenue) + [r]
      ensures !fate.Applies? ==> revenue == old(revenue)
    {
      if e.product.OtherTier? {
        return Ignored;
      }
      if !e.ref.OrgIs? {
        return Fails;
      }
      if e.ref.org !in orgs || (exists r | r in revenue :: r.externalId == e.externalId) {
        return Ignored;
      }
      var revenue0, ledger0, entitlements0 := revenue, ledger, entitlements;
      revenue := revenue + [RevenueOf(e)];
      UpsertEntitlement(e.ref.org, EffectOf(e));
      var key := LedgerKey(e);
      if key.Some? {
        if key.value in ledger {
          // The flush violates the unique event id: roll back; the revenue is not there, so raise.
          revenue, ledger, entitlements := revenue0, ledger0, entitlements0;
          return Fails;
        }
        ledger := ledger + [key.value];
      }
      fate := Applies(e.ref.org);
      assert Bills(e, RevenueOf(e));
    }

    method ApplySubscriptionEvent(e: Event) returns (fate: Fate)
      requires !e.Checkout?
      modifies this`ledger, this`entitlements
      ensures fate == FateOf(orgs, old(State()), e) && State() == Apply(orgs, old(State()), e)
    {
      var resolved := ResolveOrgId(e.ref, e.subId);
      if resolved.Ambiguous? {
        return Fails;
      }
      var key := LedgerKey(e);
      if resolved.Nobody? || resolved.org !in orgs || (key.Some? && key.value in ledger) {
        return Ignored;
      }
      UpsertEntitlement(resolved.org, EffectOf(e));
      if key.Some? {
        ledger := ledger + [key.value];
      }
      fate := Applies(resolved.org);
    }

    method ApplyBillingEvent(e: Event) returns (fate: Fate)
      modifies this`revenue, this`ledger, this`entitlements
      ensures fate == FateOf(orgs, old(State()), e) && State() == Apply(orgs, old(State()), e)
    {
      if e.Checkout? {
        fate := ApplyWebhook(e);
      } else {
        fate := ApplySubscriptionEvent(e);
      }
    }
  }

  // ---------------------------------------------------------------------------
  // The entitlement as a fold
  // ---------------------------------------------------------------------------

  // The effects that reached one organization, in order.
  ghost function Journal(orgs: set<nat>, events: seq<Event>, org: nat): seq<Effect> {
    if events == [] then []
    else
      var n := |events| - 1;
      Journal(orgs, events[..n], org)
      + if FateOf(orgs, Run(orgs, events[..n]), events[n]) == Applies(org) then [EffectOf(events[n])] else []
  }

  function LastTier(effects: seq<Effect>): Tier {
    if effects == [] then Audit
    else if effects[|effects| - 1].tier.Some? then effects[|effects| - 1].tier.value
    else LastTier(effects[..|effects| - 1])
  }

  function LastSub(effects: seq<Effect>): Option<string> {
    if effects == [] then None
    else if effects[|effects| - 1].sub.Some? then effects[|effects| - 1].sub
    else LastSub(effects[..|effects| - 1])
  }

  function LastPeriodEnd(effects: seq<Effect>): Option<int> {
    if effects == [] then None
    else if effects[|effects| - 1].periodEnd.Some? then effects[|effects| - 1].periodEnd
    else LastPeriodEnd(effects[..|effects| - 1])
  }

  // Each column is the last value any effect gave it; no effects, no row.
  function LastValues(j: seq<Effect>): Option<Entitlement> {
    if j == [] then None else Some(Entitlement(LastTier(j), j[|j| - 1].status, LastSub(j), LastPeriodEnd(j)))
  }

  lemma UpsertKeepsLast(j: seq<Effect>, f: Effect)
    ensures Some(Upsert(LastValues(j), f)) == LastValues(j + [f])
  {
    assert (j + [f])[..|j|] == j;
  }

  lemma ApplyAt(orgs: set<nat>, t: Tables, e: Event, org: nat)
    ensures Get(Apply(orgs, t, e).entitlements, org) ==
      if FateOf(orgs, t, e) == Applies(org) then Some(Upsert(Get(t.entitlements, org), EffectOf(e)))
      else Get(t.entitlements, org)
  {
  }

  // The entitlement of an organization holds the last values of the events that reached it, and exists
  // exactly when there was such an event.
  lemma {:induction false} EntitlementIsFold(orgs: set<nat>, events: seq<Event>, org: nat)
    ensures Get(Run(orgs, events).entitlements, org) == LastValues(Journal(orgs, events, org))
  {
    if events != [] {
      var n := |events| - 1;
      EntitlementIsFold(orgs, events[..n], org);
      var t, e, j := Run(orgs, events[..n]), events[n], Journal(orgs, events[..n], org);
      ApplyAt(orgs, t, e, org);
      if FateOf(orgs, t, e) == Applies(org) {
        UpsertKeepsLast(j, EffectOf(e));
        assert Journal(orgs, events, org) == j + [EffectOf(e)];
      } else {
        assert Journal(orgs, events, org) == j;
      }
    }
  }

  function TierRank(t: Tier): nat {
    match t
    case Audit => 1
    case Sprint => 2
    case Autopilot => 3
    case OtherTier(_) => 0
  }

  datatype Feature = Package | Ungated

  // _entitlement_covers
  predicate Covers(entitlement: Option<Entitlement>, feature: Feature) {
    feature.Ungated? ||
      (entitlement.Some? && entitlement.value.status.Active? && TierRank(entitlement.value.tier) >= TierRank(Sprint))
  }

  predicate Unlocks(t: Tier) {
    t.Sprint? || t.Autopilot?
  }

  // The package gate is open exactly when the last effective event made the organization active and the
  // last tier any effective event named is sprint or autopilot. Other features are open to everyone.
  lemma GateExactly(orgs: set<nat>, events: seq<Event>, org: nat)
    ensures var j := Journal(orgs, events, org);
      Covers(Get(Run(orgs, events).entitlements, org), Package) <==>
        j != [] && j[|j| - 1].status.Active? && Unlocks(LastTier(j))
    ensures Covers(Get(Run(orgs, events).entitlements, org), Ungated)
  {
    EntitlementIsFold(orgs, events, org);
  }

  // What an effective event does to the package gate: a checkout opens it for the higher products, a deletion
  // or failed payment closes it, and an update opens it only with status active and a tier, new or kept, that
  // unlocks it.
  lemma GateAfterEvent(orgs: set<nat>, events: seq<Event>, e: Event, org: nat)
    requires FateOf(orgs, Run(orgs, events), e) == Applies(org)
    ensures var before, after := Get(Run(orgs, events).entitlements, org),
      Get(Run(orgs, events + [e]).entitlements, org);
      Covers(after, Package) <==> match e
        case Checkout(_, product, _, _, _, _) => Unlocks(product)
        case Updated(_, _, _, status, tier, _) =>
          status == Some(Active) &&
            (if tier.Some? then Unlocks(tier.value) else before.Some? && Unlocks(before.value.tier))
        case _ => false
  {
    assert (events + [e])[..|events|] == events;
    ApplyAt(orgs, Run(orgs, events), e, org);
  }

  // What an effective event leaves in each column.
  lemma EntitlementAfterEvent(orgs: set<nat>, events: seq<Event>, e: Event, org: nat)
    requires FateOf(orgs, Run(orgs, events), e) == Applies(org)
    ensures var before, after := Get(Run(orgs, events).entitlements, org),
      Get(Run(orgs, events + [e]).entitlements, org);
      && after.Some?
      && after.value.status == (match e
           case Checkout(_, _, _, _, _, _) => Active
           case Updated(_, _, _, status, _, _) => if status.Some? then status.value else Incomplete
           case Deleted(_, _, _) => Canceled
           case PaymentFailed(_, _, _) => PastDue)
      && after.value.tier == (match e
           case Checkout(_, product, _, _, _, _) => product
           case Updated(_, _, _, _, Some(tier), _) => tier
           case _ => if before.Some? then before.value.tier else Audit)
      && after.value.sub == (if e.subId.Some? && !e.PaymentFailed? then e.subId
                             else if before.Some? then before.value.sub else None)
      && after.value.periodEnd == (if e.Updated? && e.periodEnd.Some? then e.periodEnd
                                   else if before.Some? then before.value.periodEnd else None)
  {
    assert (events + [e])[..|events|] == events;
    ApplyAt(orgs, Run(orgs, events), e, org);
  }

  lemma OneMember(holders: set<nat>, p: nat)
    requires p in holders
    ensures |holders| == 1 <==> holders == {p}
    ensures |holders| > 1 <==> exists q | q in holders :: q != p
  {
    assert |holders - {p}| == |holders| - 1;
    if holders != {p} {
      assert holders - {p} != {};
      var q :| q in holders - {p};
    }
  }

  // A subscription id alone leads to the one organization that has it, and to an exception if several have.
  lemma ResolvesExactly(entitlements: map<nat, Entitlement>, subId: string, o: nat)
    requires subId != ""
    ensures Resolve(entitlements, NoOrg, Some(subId)) == To(o) <==>
      forall p :: (p in entitlements && entitlements[p].sub == Some(subId)) <==> p == o
    ensures Resolve(entitlements, NoOrg, Some(subId)).Ambiguous? <==>
      exists p, q | p in Holders(entitlements, subId) && q in Holders(entitlements, subId) :: p != q
  {
    var holders := Holders(entitlements, subId);
    assert forall p :: p in holders <==> p in entitlements && entitlements[p].sub == Some(subId);
    assert holders == {o} <==> forall p :: p in holders <==> p == o;
    if p :| p in holders {
      OneMember(holders, p);
      assert forall q | q in holders && holders == {p} :: q == p;
    }
  }

  // A delivery raises exactly in three cases: a checkout of a listed product without a valid organization id; one for
  // a new charge that carries the event id of another effective event; and an event that names only a subscription
  // which several organizations have.
  lemma RaisesExactly(orgs: set<nat>, events: seq<Event>, e: Event)
    ensures var kept, t := Essential(orgs, events), Run(orgs, events);
      FateOf(orgs, t, e).Fails? <==>
        if e.Checkout? then
          && !e.product.OtherTier?
          && (!e.ref.OrgIs? ||
              (e.ref.org in orgs && (forall x | x in kept && x.Checkout? :: x.externalId != e.externalId) &&
               exists x | x in kept :: LedgerKey(e).Some? && LedgerKey(x) == LedgerKey(e)))
        else
          e.ref.NoOrg? && e.subId.Some? && e.subId.value != "" &&
          exists p, q | p in Holders(t.entitlements, e.subId.value) && q in Holders(t.entitlements, e.subId.value) ::
            p != q
  {
    EssentialKeys(orgs, events);
    if e.subId.Some? && e.subId.value != "" {
      ResolvesExactly(Run(orgs, events).entitlements, e.subId.value, 0);
    }
  }

  // ---------------------------------------------------------------------------
  // Redeliveries
  // ---------------------------------------------------------------------------

  // The events that took effect.
  ghost function Essential(orgs: set<nat>, events: seq<Event>): seq<Event> {
    if events == [] then []
    else
      var n := |events| - 1;
      Essential(orgs, events[..n]) + if FateOf(orgs, Run(orgs, events[..n]), events[n]).Applies? then [events[n]]
        else []
  }

  // A fold with no revenue table and no ledger, which never asks whether an event was seen before.
  ghost function PlainFold(events: seq<Event>): map<nat, Entitlement> {
    if events == [] then map[]
    else
      var e, before := events[|events| - 1], PlainFold(events[..|events| - 1]);
      match Resolve(before, e.ref, e.subId)
      case To(o) => before[o := Upsert(Get(before, o), EffectOf(e))]
      case _ => before
  }

  predicate KeysDistinct(events: seq<Event>) {
    forall i, j | 0 <= i < j < |events| ::
      && (events[i].Checkout? && events[j].Checkout? ==> events[i].externalId != events[j].externalId)
      && (LedgerKey(events[i]).Some? ==> LedgerKey(events[i]) != LedgerKey(events[j]))
  }

  // The tables hold exactly the keys of the events that took effect.
  ghost predicate KeysHeld(t: Tables, essential: seq<Event>) {
    && (forall id :: Fulfilled(t.revenue, id) <==> exists e | e in essential :: e.Checkout? && e.externalId == id)
    && (forall id :: id in t.ledger <==> exists e | e in essential :: LedgerKey(e) == Some(id))
  }

  lemma BookedIds(revenue: seq<Revenue>, r: Revenue, id: string)
    ensures Fulfilled(revenue + [r], id) <==> Fulfilled(revenue, id) || r.externalId == id
  {
    assert r in revenue + [r];
    assert forall x | x in revenue :: x in revenue + [r];
  }

  lemma KeysHeldStep(orgs: set<nat>, t: Tables, e: Event, essential: seq<Event>)
    requires KeysHeld(t, essential) && KeysDistinct(essential) && FateOf(orgs, t, e).Applies?
    ensures KeysHeld(Apply(orgs, t, e), essential + [e]) && KeysDistinct(essential + [e])
  {
    var t', list := Apply(orgs, t, e), essential + [e];
    assert e in list && forall x | x in essential :: x in list;
    forall id ensures Fulfilled(t'.revenue, id) <==> exists x | x in list :: x.Checkout? && x.externalId == id {
      if e.Checkout? {
        BookedIds(t.revenue, RevenueOf(e), id);
      }
    }
    forall i, j | 0 <= i < j < |list|
      ensures (list[i].Checkout? && list[j].Checkout? ==> list[i].externalId != list[j].externalId)
      ensures LedgerKey(list[i]).Some? ==> LedgerKey(list[i]) != LedgerKey(list[j])
    {
      assert list[i] in essential;
    }
  }

  lemma {:induction false} EssentialKeys(orgs: set<nat>, events: seq<Event>)
    ensures KeysHeld(Run(orgs, events), Essential(orgs, events)) && KeysDistinct(Essential(orgs, events))
  {
    if events != [] {
      var n := |events| - 1;
      EssentialKeys(orgs, events[..n]);
      if FateOf(orgs, Run(orgs, events[..n]), events[n]).Applies? {
        KeysHeldStep(orgs, Run(orgs, events[..n]), events[n], Essential(orgs, events[..n]));
      }
    }
  }

  lemma OneMore(orgs: set<nat>, events: seq<Event>, e: Event)
    ensures var t := Run(orgs, events);
      && Run(orgs, events + [e]) == Apply(orgs, t, e)
      && Essential(orgs, events + [e]) ==
           if FateOf(orgs, t, e).Applies? then Essential(orgs, events) + [e] else Essential(orgs, events)
  {
    assert (events + [e])[..|events|] == events;
  }

  lemma FoldsOn(orgs: set<nat>, t: Tables, e: Event, before: seq<Event>)
    requires t.entitlements == PlainFold(before) && FateOf(orgs, t, e).Applies?
    ensures Apply(orgs, t, e).entitlements == PlainFold(before + [e])
  {
    assert (before + [e])[..|before|] == before;
  }

  // Dropping every delivery that had no effect changes no table. What is left names each external id
  // and each event id once, and the entitlements are its plain fold.
  lemma {:induction false} TablesRefineFold(orgs: set<nat>, events: seq<Event>)
    ensures var kept := Essential(orgs, events);
      && Run(orgs, kept) == Run(orgs, events)
      && KeysDistinct(kept)
      && Run(orgs, events).entitlements == PlainFold(kept)
  {
    EssentialKeys(orgs, events);
    if events != [] {
      var n := |events| - 1;
      var t, e, before := Run(orgs, events[..n]), events[n], Essential(orgs, events[..n]);
      TablesRefineFold(orgs, events[..n]);
      assert events == events[..n] + [e];
      OneMore(orgs, events[..n], e);
      if FateOf(orgs, t, e).Applies? {
        OneMore(orgs, before, e);
        FoldsOn(orgs, t, e, before);
      }
    }
  }

  lemma {:induction false} KeysStayHeld(orgs: set<nat>, events: seq<Event>, more: seq<Event>)
    ensures Essential(orgs, events) <= Essential(orgs, events + more)
  {
    if more == [] {
      assert events + more == events;
    } else {
      assert (events + more)[..|events + more| - 1] == events + more[..|more| - 1];
      KeysStayHeld(orgs, events, more[..|more| - 1]);
    }
  }

  // Redelivering an event that once took effect, whatever came in between, changes nothing: a checkout
  // by its external id, any other event by its event id.
  lemma RedeliveryIsNoOp(orgs: set<nat>, events: seq<Event>, more: seq<Event>, e: Event)
    requires e in Essential(orgs, events) && (e.Checkout? || LedgerKey(e).Some?)
    ensures Run(orgs, events + more + [e]) == Run(orgs, events + more)
  {
    KeysStayHeld(orgs, events, more);
    EssentialKeys(orgs, events + more);
    assert e in Essential(orgs, events + more);
    assert (events + more + [e])[..|events + more|] == events + more;
  }

  lemma {:induction false} EssentialAreDelivered(orgs: set<nat>, events: seq<Event>)
    ensures forall e | e in Essential(orgs, events) :: e in events && (e.Checkout? ==> Fulfillable(orgs, e))
  {
    if events != [] {
      EssentialAreDelivered(orgs, events[..|events| - 1]);
    }
  }

  function Checkouts(events: seq<Event>): seq<Event> {
    if events == [] then []
    else
      var front, e := Checkouts(events[..|events| - 1]), events[|events| - 1];
      if e.Checkout? then front + [e] else front
  }

  // Row by row, what is booked is what the checkouts that took effect cost, for the organization, product and
  // external id that they name.
  lemma {:induction false} BookedAsCharged(orgs: set<nat>, events: seq<Event>)
    ensures var revenue, kept := Run(orgs, events).revenue, Checkouts(Essential(orgs, events));
      |revenue| == |kept| && forall i | 0 <= i < |kept| ::
        Bills(kept[i], revenue[i]) && Fulfillable(orgs, kept[i]) && kept[i] in events
  {
    if events != [] {
      var front, e := events[..|events| - 1], events[|events| - 1];
      BookedAsCharged(orgs, front);
      assert events == front + [e];
      OneMore(orgs, front, e);
      var before := Essential(orgs, front);
      assert (before + [e])[..|before|] == before;
      assert e.Checkout? && Fulfillable(orgs, e) ==> Bills(e, RevenueOf(e));
    }
  }

  lemma {:induction false} NoEmptyId(orgs: set<nat>, events: seq<Event>)
    ensures "" !in Run(orgs, events).ledger
  {
    if events != [] {
      NoEmptyId(orgs, events[..|events| - 1]);
    }
  }

  // An event without an id, or with an empty one, is neither recorded nor ever taken for a repetition.
  lemma UnnamedIsNew(orgs: set<nat>, events: seq<Event>, e: Event)
    requires e.eventId.None? || e.eventId.value == ""
    ensures var t := Run(orgs, events);
      && Apply(orgs, t, e).ledger == t.ledger && "" !in t.ledger
      && FateOf(orgs, t, e) == FateOf(orgs, t.(ledger := []), e)
  {
    NoEmptyId(orgs, events);
  }

  predicate OneEventPerId(events: seq<Event>) {
    forall a, b | a in events && b in events && LedgerKey(a).Some? && LedgerKey(a) == LedgerKey(b) :: a == b
  }

  // As long as an event id means one event, exactly the fulfillable checkouts delivered are booked.
  lemma {:induction false} RevenueExactly(orgs: set<nat>, events: seq<Event>, id: string)
    requires OneEventPerId(events)
    ensures Fulfilled(Run(orgs, events).revenue, id) <==>
      exists e | e in events :: Fulfillable(orgs, e) && e.externalId == id
  {
    if events != [] {
      var n := |events| - 1;
      var e, t := events[n], Run(orgs, events[..n]);
      assert events == events[..n] + [e];
      RevenueExactly(orgs, events[..n], id);
      EssentialKeys(orgs, events);
      EssentialKeys(orgs, events[..n]);
      EssentialAreDelivered(orgs, events[..n]);
      forall earlier | earlier in Essential(orgs, events[..n]) && LedgerKey(e).Some? &&
        LedgerKey(earlier) == LedgerKey(e)
        ensures earlier == e
      {
        assert earlier in events && e in events;
      }
      assert Run(orgs, events) == Apply(orgs, t, e);
      if FateOf(orgs, t, e).Applies? && e.Checkout? {
        BookedIds(t.revenue, RevenueOf(e), id);
      }
    }
  }
}
