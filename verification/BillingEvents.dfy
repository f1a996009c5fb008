/** Verified billing events and the entitlement row, apps/api/captureos/services/billing.py. */
module BillingEvents {
  import opened Wrappers

  datatype Tier = Audit | Sprint | Autopilot | OtherTier(name: string)

  datatype Status = Active | PastDue | Canceled | Incomplete | OtherStatus

  // The org id an event carries: absent, not a UUID, or a UUID.
  datatype OrgRef = NoOrg | BadOrg | OrgIs(org: nat)

  datatype Event =
    | Checkout(ref: OrgRef, product: Tier, amount: Option<int>, externalId: string, subId: Option<string>,
      eventId: Option<string>)
    | Updated(ref: OrgRef, subId: Option<string>, eventId: Option<string>, status: Option<Status>, tier: Option<Tier>,
      periodEnd: Option<int>)
    | Deleted(ref: OrgRef, subId: Option<string>, eventId: Option<string>)
    | PaymentFailed(ref: OrgRef, subId: Option<string>, eventId: Option<string>)

  datatype Revenue = Revenue(org: nat, product: Tier, amount: int, externalId: string)

  function Price(product: Tier): int {
    match product
    case Audit => 9900
    case Sprint => 29900
    case Autopilot => 99900
    case OtherTier(_) => 0
  }

  // A checkout that fulfilment will not refuse: a listed product and an existing organization.
  predicate Fulfillable(orgs: set<nat>, e: Event) {
    e.Checkout? && !e.product.OtherTier? && e.ref.OrgIs? && e.ref.org in orgs
  }

  // `int(event.get("amount_cents") or PRODUCT_PRICES[product])`: zero counts as absent.
  function RevenueOf(e: Event): Revenue
    requires e.Checkout? && e.ref.OrgIs?
  {
    var listed := e.amount.None? || e.amount.value == 0;
    Revenue(e.ref.org, e.product, if listed then Price(e.product) else e.amount.value, e.externalId)
  }

  // What a checkout costs, in cents: the amount it carries, or the list price.
  function Charged(e: Event): int
    requires e.Checkout?
  {
    if e.amount.Some? && e.amount.value != 0 then e.amount.value
    else match e.product
      case Audit => 9900
      case Sprint => 29900
      case Autopilot => 99900
      case OtherTier(_) => 0
  }

  // The row that a checkout is owed.
  predicate Bills(e: Event, r: Revenue) {
    && e.Checkout? && e.ref == OrgIs(r.org) && e.product == r.product && e.externalId == r.externalId
    && r.amount == Charged(e)
  }

  // Event ids that are missing or empty are neither looked up nor recorded.
  function LedgerKey(e: Event): Option<string> {
    if e.eventId.Some? && e.eventId.value != "" then e.eventId else None
  }
}
