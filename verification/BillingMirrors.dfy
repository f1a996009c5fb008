/**
 The mirrored subscription rows, apps/api/captureos/services/billing.py `_mirror_subscription`, over every run of
 racing deliveries: which events leave an organization with one.
 */
module BillingMirrors {
  import opened Wrappers
  import opened Sums
  import opened BillingEvents
  import opened BillingRace

  // A checkout, a deletion, a failed payment, or an update to a status that the mirror shows.
  predicate Touches(e: Event) {
    e.Checkout? || e.Deleted? || e.PaymentFailed? ||
    (e.Updated? && (e.status == Some(Active) || e.status == Some(PastDue) || e.status == Some(Canceled)))
  }

  // The organization has its row, or will have.
  predicate Covered(mirrors: seq<nat>, inserts: Option<nat>, org: nat) {
    org in mirrors || inserts == Some(org)
  }

  predicate DeliveryTells(mirrors: seq<nat>, d: Delivery) {
    var own := if d.event.ref.OrgIs? then Some(d.event.ref.org) else None;
    match d.phase
    case Checked(o) => own.Some? ==> own == Some(o)
    case Looked(o, found) =>
      && (own.Some? ==> own == Some(o))
      && (d.event.Checkout? ==> Covered(mirrors, found, o) && (found.Some? ==> found == Some(o)))
    case Prepared(w) => WritesTell(mirrors, d.event, own, w)
    case Flushed(w) => WritesTell(mirrors, d.event, own, w)
    case Returned(changed) => changed && Touches(d.event) && own.Some? ==> own.value in mirrors
    case _ => true
  }

  predicate WritesTell(mirrors: seq<nat>, e: Event, own: Option<nat>, w: Writes) {
    && (w.mirror.Some? ==> Touches(e) && (own.Some? ==> own == w.mirror))
    && (Touches(e) && own.Some? ==> Covered(mirrors, w.mirror, own.value))
  }

  // The delivery may have left this row: it took effect, and the organization it names is this one.
  predicate Explains(d: Delivery, o: nat) {
    d.phase == Returned(true) && Touches(d.event) && (d.event.ref.OrgIs? ==> d.event.ref.org == o)
  }

  ghost predicate RowExplained(s: State, o: nat) {
    exists d | 0 <= d < |s.deliveries| :: Explains(s.deliveries[d], o)
  }

  ghost predicate MirrorsInv(s: State) {
    && (forall d | 0 <= d < |s.deliveries| :: DeliveryTells(s.mirrors, s.deliveries[d]))
    && (forall o | o in s.mirrors :: RowExplained(s, o))
  }

  lemma MoverTells(orgs: set<nat>, s: State, l: Label)
    requires MirrorsInv(s) && !l.Arrive? && Enabled(s, l)
    ensures DeliveryTells(Step(orgs, s, l).mirrors, s.deliveries[l.d].(phase := NextPhase(orgs, s, l)))
  {
    assert DeliveryTells(s.mirrors, s.deliveries[l.d]);
  }

  lemma OthersTell(mirrors: seq<nat>, x: Option<nat>, d: Delivery)
    requires DeliveryTells(mirrors, d)
    ensures DeliveryTells(Add(mirrors, x), d)
  {
  }

  lemma RowStaysExplained(orgs: set<nat>, s: State, l: Label, o: nat)
    requires MirrorsInv(s) && o in Step(orgs, s, l).mirrors
    ensures RowExplained(Step(orgs, s, l), o)
  {
    var s' := Step(orgs, s, l);
    if o in s.mirrors {
      var d :| 0 <= d < |s.deliveries| && Explains(s.deliveries[d], o);
      assert s'.deliveries[d] == s.deliveries[d];
    } else {
      assert DeliveryTells(s.mirrors, s.deliveries[l.d]);
      assert Explains(s'.deliveries[l.d], o);
    }
  }

  lemma StepKeepsMirrors(orgs: set<nat>, s: State, l: Label)
    requires MirrorsInv(s)
    ensures MirrorsInv(Step(orgs, s, l))
  {
    if Enabled(s, l) {
      var s' := Step(orgs, s, l);
      forall d | 0 <= d < |s'.deliveries| ensures DeliveryTells(s'.mirrors, s'.deliveries[d]) {
        if !l.Arrive? && d == l.d {
          MoverTells(orgs, s, l);
        } else if l.Commit? {
          OthersTell(s.mirrors, s.deliveries[l.d].phase.writes.mirror, s.deliveries[d]);
        }
      }
      forall o | o in s'.mirrors ensures RowExplained(s', o) {
        RowStaysExplained(orgs, s, l, o);
      }
    }
  }

  lemma {:induction false} RunKeepsMirrors(orgs: set<nat>, labels: seq<Label>)
    ensures MirrorsInv(Run(orgs, labels))
  {
    if labels != [] {
      RunKeepsMirrors(orgs, labels[..|labels| - 1]);
      StepKeepsMirrors(orgs, Run(orgs, labels[..|labels| - 1]), labels[|labels| - 1]);
    }
  }

  // An organization has a mirror row after every delivery that took effect for it, named it and concerns the mirror,
  // and has none without such a delivery.
  lemma MirrorsTell(orgs: set<nat>, labels: seq<Label>, o: nat)
    ensures var s := Run(orgs, labels);
      && (o in s.mirrors ==> exists d | 0 <= d < |s.deliveries| :: Explains(s.deliveries[d], o))
      && forall d | 0 <= d < |s.deliveries| && s.deliveries[d].phase == Returned(true) &&
           Touches(s.deliveries[d].event) && s.deliveries[d].event.ref == OrgIs(o) :: o in s.mirrors
  {
    RunKeepsMirrors(orgs, labels);
    var s := Run(orgs, labels);
    assert o in s.mirrors ==> RowExplained(s, o);
    forall d | 0 <= d < |s.deliveries| ensures DeliveryTells(s.mirrors, s.deliveries[d]) {}
  }

  // A second row stops exactly the events that concern the mirror, when they look it up: a checkout first, any other
  // after the entitlement.
  lemma SecondRowRaises(orgs: set<nat>, s: State, l: Label)
    requires (l.Look? || l.LookAgain?) && Enabled(s, l)
    ensures NextPhase(orgs, s, l).Raised? <==>
      && Touches(s.deliveries[l.d].event) && (l.Look? <==> s.deliveries[l.d].event.Checkout?)
      && Sum(CountOf(s.deliveries[l.d].phase.org), s.mirrors) > 1
  {
  }
}
