/**
 Fulfilling Stripe's events (crates/tam-api/src/billing.rs) over the grant
 table and the move ledger (crates/tam-storage/src/entitlement.rs).
 Deliveries repeat and arrive in any order.
 */
module Billing {
  import opened Saturating
  import opened Wrappers

  const I32_MAX: int := 0x7FFF_FFFF
  const GRACE_MS: int := 24 * 3_600_000
  const PACK_VALIDITY_MS: int := 365 * 86_400_000

  /** Stripe's seconds as the milliseconds every instant is kept in. */
  function At(seconds: int): int { Saturate(seconds * 1_000) }

  function WithGrace(instant: int): int { Saturate(instant + GRACE_MS) }

  // ------------------------------------------------------------ what is sold

  datatype Plan = Starter | Subscriber | Studio

  datatype PriceKey =
    | StarterMonthly | StarterYearly | ProMonthly | ProYearly | StudioMonthly | StudioYearly
    | Pack20 | Pack50 | Pack100 | Pack250 | Pack500

  type PriceMap = map<string, PriceKey>

  function PlanOf(key: PriceKey): Option<Plan> {
    match key
    case StarterMonthly | StarterYearly => Some(Starter)
    case ProMonthly | ProYearly => Some(Subscriber)
    case StudioMonthly | StudioYearly => Some(Studio)
    case _ => None
  }

  function PackSize(key: PriceKey): Option<int> {
    match key
    case Pack20 => Some(20)
    case Pack50 => Some(50)
    case Pack100 => Some(100)
    case Pack250 => Some(250)
    case Pack500 => Some(500)
    case _ => None
  }

  function PlanSold(prices: PriceMap, price: Option<string>): Option<Plan> {
    if price.Some? && price.value in prices then PlanOf(prices[price.value]) else None
  }

  /** Each plan is sold by the month and by the year, five packs by their size, and nothing else is sold. */
  lemma PricesSell(key: PriceKey)
    ensures PlanOf(key) == Some(Starter) <==> key in {StarterMonthly, StarterYearly}
    ensures PlanOf(key) == Some(Subscriber) <==> key in {ProMonthly, ProYearly}
    ensures PlanOf(key) == Some(Studio) <==> key in {StudioMonthly, StudioYearly}
    ensures PlanOf(key).None? <==> PackSize(key).Some?
    ensures key in map[Pack20 := 20, Pack50 := 50, Pack100 := 100, Pack250 := 250, Pack500 := 500]
            <==> PackSize(key).Some?
    ensures PackSize(key).Some? ==>
              PackSize(key).value
              == map[Pack20 := 20, Pack50 := 50, Pack100 := 100, Pack250 := 250, Pack500 := 500][key]
  {
  }

  /** The moves one pack line buys, in the arithmetic of 64 and then 32 bits. */
  function PackMoves(quantity: int, size: int): int {
    var wide := Saturate((if quantity > 1 then quantity else 1) * size);
    if wide > I32_MAX then I32_MAX else wide
  }

  /** Saturation twice over is one bound: no quantity buys less than a pack or more than the column holds. */
  lemma PackMovesExact(quantity: int, key: PriceKey)
    requires quantity <= I64_MAX && PackSize(key).Some?
    ensures var size := PackSize(key).value;
            var paid := (if quantity > 1 then quantity else 1) * size;
            && PackMoves(quantity, size) == (if paid < I32_MAX then paid else I32_MAX)
            && size <= PackMoves(quantity, size)
  {
    var q := if quantity > 1 then quantity else 1;
    assert q * PackSize(key).value >= PackSize(key).value;
  }

  // ------------------------------------------------------------ what is stored

  datatype GrantedBy = Stripe | Paddle | Operator

  datatype Grant = Grant(
    org: nat, plan: Plan, grantor: GrantedBy, source: Option<string>,
    grantedAt: int, expiresAt: Option<int>, revokedAt: Option<int>)

  datatype Credit = Credit(org: nat, session: string, delta: int, expiresAt: int, at: int)

  /** The grant rows in the order they were written, and the ledger rows packs wrote. */
  datatype Store = Store(grants: seq<Grant>, credits: seq<Credit>)

  predicate Provides(g: Grant, org: nat, source: string) {
    g.org == org && g.source == Some(source) && !g.grantor.Operator? && g.revokedAt.None?
  }

  /** Whether a live row of anybody's already names this source: the unique index. */
  predicate Taken(grants: seq<Grant>, source: string) {
    exists i | 0 <= i < |grants| :: grants[i].source == Some(source) && grants[i].revokedAt.None?
  }

  function ProviderGrant(grants: seq<Grant>, org: nat, source: string): (found: Option<nat>)
    ensures found.Some? ==> found.value < |grants| && Provides(grants[found.value], org, source)
    ensures found.None? ==> forall g <- grants :: !Provides(g, org, source)
  {
    if grants == [] then None
    else if Provides(grants[|grants| - 1], org, source) then Some(|grants| - 1)
    else ProviderGrant(grants[..|grants| - 1], org, source)
  }

  predicate Credited(credits: seq<Credit>, org: nat, session: string) {
    exists i | 0 <= i < |credits| :: credits[i].org == org && credits[i].session == session
  }

  // ------------------------------------------------------------ what arrives

  datatype Failure = Unreadable | SourceTaken

  datatype Purchase = Purchase(org: nat, session: string, subscription: Option<string>, occurredAt: int)

  datatype LinePeriod = LinePeriod(start: Option<int>, end: Option<int>)

  /** What happens to a subscription: what Stripe delivers, and a refund that ends the plan at an instant of ours. */
  datatype Event =
    | CheckoutCompleted(org: Option<nat>, unpaid: bool, session: string, lines: seq<(string, int)>,
                        subscription: Option<string>, created: int)
    | InvoicePaid(org: Option<nat>, subscription: Option<string>, price: Option<string>,
                  periods: seq<LinePeriod>, header: LinePeriod, created: int)
    | InvoiceFailed(org: Option<nat>, subscription: Option<string>, created: int)
    | SubscriptionChanged(org: Option<nat>, subscription: Option<string>, status: Option<string>, deleted: bool,
                          periodEnd: Option<int>, endedAt: Option<int>, price: Option<string>, created: int)
    | PlanEnded(org: Option<nat>, subscription: Option<string>, now: int)

  /** What Stripe delivers, and may deliver again. */
  type Delivery = e: Event | !e.PlanEnded? witness InvoiceFailed(None, None, 0)

  const ENTITLING: set<string> := {"active", "trialing"}

  function Latest(periods: seq<LinePeriod>): (end: Option<int>)
    ensures end.None? <==> forall p <- periods :: p.end.None?
    ensures end.Some? ==> (exists p <- periods :: p.end == end)
                          && forall p <- periods :: p.end.Some? ==> p.end.value <= end.value
  {
    if periods == [] then None
    else
      var rest := Latest(periods[1..]);
      var first := periods[0].end;
      assert forall p <- periods :: p == periods[0] || p in periods[1..];
      if rest.None? || (first.Some? && first.value >= rest.value) then OrElse(first, rest) else rest
  }

  /** The end of the service period an invoice paid for: its lines', or its header's where no line states one. */
  function PeriodEnd(e: Event): Option<int>
    requires e.InvoicePaid?
  {
    OrElse(Latest(e.periods), e.header.end)
  }

  /** What one event would make of a subscription's live grant. */
  datatype Hold = Hold(plan: Option<Plan>, expiresAt: Option<int>, occurredAt: int, create: bool)

  function PaidHold(prices: PriceMap, e: Event): Hold
    requires e.InvoicePaid?
  {
    var end := PeriodEnd(e);
    Hold(PlanSold(prices, e.price), if end.Some? then Some(WithGrace(At(end.value))) else None, At(e.created), true)
  }

  function ChangedHold(prices: PriceMap, e: Event): Hold
    requires e.SubscriptionChanged? && e.status.Some?
  {
    var end := if e.deleted then OrElse(e.endedAt, e.periodEnd) else e.periodEnd;
    var entitling := !e.deleted && e.status.value in ENTITLING;
    var stops := if end.None? then None
                 else Some(if entitling then WithGrace(At(end.value)) else At(end.value));
    Hold(PlanSold(prices, e.price), stops, At(e.created), entitling)
  }

  // ------------------------------------------------------------ the writes, as functions of the store

  function StripeGrant(org: nat, source: string, plan: Plan, at: int, expiresAt: Option<int>): Grant {
    Grant(org, plan, Stripe, Some(source), at, expiresAt, None)
  }

  function Inserted(s: Store, g: Grant): (Store, Result<(), Failure>) {
    if g.source.Some? && Taken(s.grants, g.source.value) then (s, Err(SourceTaken))
    else (s.(grants := s.grants + [g]), Ok(()))
  }

  function ExpirySet(s: Store, i: nat, expiresAt: Option<int>): Store
    requires i < |s.grants|
  {
    if s.grants[i].revokedAt.Some? then s else s.(grants := s.grants[i := s.grants[i].(expiresAt := expiresAt)])
  }

  function Revoked(s: Store, i: nat, at: int): Store
    requires i < |s.grants|
  {
    if s.grants[i].revokedAt.Some? then s else s.(grants := s.grants[i := s.grants[i].(revokedAt := Some(at))])
  }

  function Held(s: Store, org: nat, subscription: string, hold: Hold): (Store, Result<(), Failure>) {
    var held := ProviderGrant(s.grants, org, subscription);
    if held.Some? then
      var was := s.grants[held.value].plan;
      if hold.plan.Some? && hold.plan.value != was then
        Inserted(Revoked(s, held.value, hold.occurredAt),
                 StripeGrant(org, subscription, hold.plan.value, hold.occurredAt, hold.expiresAt))
      else (ExpirySet(s, held.value, hold.expiresAt), Ok(()))
    else if hold.create && hold.plan.Some? then
      Inserted(s, StripeGrant(org, subscription, hold.plan.value, hold.occurredAt, hold.expiresAt))
    else (s, Ok(()))
  }

  /** A grant's expiry moved where one is held, and nothing otherwise. */
  function Rescheduled(s: Store, org: nat, subscription: string, expiresAt: int): Store {
    var held := ProviderGrant(s.grants, org, subscription);
    if held.Some? then ExpirySet(s, held.value, Some(expiresAt)) else s
  }

  function Started(s: Store, org: nat, subscription: string, plan: Plan, at: int): (Store, Result<(), Failure>) {
    if ProviderGrant(s.grants, org, subscription).Some? then (s, Ok(()))
    else Inserted(s, StripeGrant(org, subscription, plan, at, Some(WithGrace(at))))
  }

  function PackCredited(s: Store, p: Purchase, moves: int): Store {
    if Credited(s.credits, p.org, p.session) then s
    else s.(credits := s.credits
                       + [Credit(p.org, p.session, moves, Saturate(p.occurredAt + PACK_VALIDITY_MS), p.occurredAt)])
  }

  function LineBought(prices: PriceMap, s: Store, p: Purchase, line: (string, int)): (Store, Result<(), Failure>) {
    if line.0 !in prices then (s, Ok(()))
    else
      var key := prices[line.0];
      if PackSize(key).Some? then (PackCredited(s, p, PackMoves(line.1, PackSize(key).value)), Ok(()))
      else if p.subscription.None? then (s, Err(Unreadable))
      else if PlanOf(key).None? then (s, Ok(()))
      else Started(s, p.org, p.subscription.value, PlanOf(key).value, p.occurredAt)
  }

  /** The lines in turn; the first that fails ends the delivery and keeps what came before it. */
  function LinesBought(prices: PriceMap, s: Store, p: Purchase, lines: seq<(string, int)>): (Store, Result<(), Failure>)
    decreases |lines|
  {
    if lines == [] then (s, Ok(()))
    else
      var (t, done) := LineBought(prices, s, p, lines[0]);
      if done.Err? then (t, done) else LinesBought(prices, t, p, lines[1..])
  }

  function PurchaseOf(e: Event): Purchase
    requires e.CheckoutCompleted? && e.org.Some?
  {
    Purchase(e.org.value, e.session, e.subscription, At(e.created))
  }

  /** One delivery: the store it leaves, and whether it was acknowledged. */
  function Delivered(prices: PriceMap, s: Store, e: Delivery): (Store, Result<(), Failure>) {
    match e
    case CheckoutCompleted(org, unpaid, session, lines, subscription, created) =>
      if unpaid || org.None? then (s, Ok(())) else LinesBought(prices, s, PurchaseOf(e), lines)
    case InvoicePaid(org, subscription, price, periods, header, created) =>
      if org.None? || subscription.None? then (s, Ok(()))
      else Held(s, org.value, subscription.value, PaidHold(prices, e))
    case InvoiceFailed(org, subscription, created) =>
      if org.None? || subscription.None? then (s, Ok(()))
      else (Rescheduled(s, org.value, subscription.value, WithGrace(At(created))), Ok(()))
    case SubscriptionChanged(org, subscription, status, deleted, periodEnd, endedAt, price, created) =>
      if org.None? then (s, Ok(()))
      else if subscription.None? || status.None? then (s, Err(Unreadable))
      else Held(s, org.value, subscription.value, ChangedHold(prices, e))
  }

  /** The store anything that happens leaves: a delivery, or a plan ended now. */
  function Happened(prices: PriceMap, s: Store, e: Event): Store {
    if !e.PlanEnded? then Delivered(prices, s, e).0
    else if e.org.None? || e.subscription.None? then s
    else Rescheduled(s, e.org.value, e.subscription.value, e.now)
  }

  // ------------------------------------------------------------ the writes, as the handlers make them

  class Ledger {
    const prices: PriceMap
    var grants: seq<Grant>
    var credits: seq<Credit>

    ghost function View(): Store reads this { Store(grants, credits) }

    constructor (prices: PriceMap)
      ensures this.prices == prices && View() == Store([], [])
    {
      this.prices := prices;
      grants, credits := [], [];
    }

    method FindProviderGrant(org: nat, source: string) returns (found: Option<nat>)
      ensures found == ProviderGrant(grants, org, source)
    {
      var i := |grants|;
      assert grants[..i] == grants;
      while i > 0
        invariant 0 <= i <= |grants|
        invariant ProviderGrant(grants, org, source) == ProviderGrant(grants[..i], org, source)
      {
        assert grants[..i][..i - 1] == grants[..i - 1];
        if Provides(grants[i - 1], org, source) { return Some(i - 1); }
        i := i - 1;
      }
      assert grants[..0] == [];
      found := None;
    }

    method AddGrant(g: Grant) returns (done: Result<(), Failure>)
      modifies this`grants
      ensures (View(), done) == Inserted(old(View()), g)
    {
      if g.source.Some? && Taken(grants, g.source.value) { return Err(SourceTaken); }
      grants := grants + [g];
      done := Ok(());
    }

    method SetExpiry(i: nat, expiresAt: Option<int>)
      requires i < |grants|
      modifies this`grants
      ensures View() == ExpirySet(old(View()), i, expiresAt)
    {
      if grants[i].revokedAt.None? { grants := grants[i := grants[i].(expiresAt := expiresAt)]; }
    }

    method Revoke(i: nat, at: int)
      requires i < |grants|
      modifies this`grants
      ensures View() == Revoked(old(View()), i, at)
    {
      if grants[i].revokedAt.None? { grants := grants[i := grants[i].(revokedAt := Some(at))]; }
    }

    method CreditMoves(p: Purchase, moves: int)
      modifies this`credits
      ensures View() == PackCredited(old(View()), p, moves)
    {
      if !Credited(credits, p.org, p.session) {
        credits := credits
                   + [Credit(p.org, p.session, moves, Saturate(p.occurredAt + PACK_VALIDITY_MS), p.occurredAt)];
      }
    }

    /** A subscription's grant made to sell one plan: moved where it already does, replaced where it sells another. */
    method HoldPlan(org: nat, subscription: string, hold: Hold) returns (done: Result<(), Failure>)
      modifies this`grants
      ensures (View(), done) == Held(old(View()), org, subscription, hold)
    {
      var held := FindProviderGrant(org, subscription);
      match held
      case Some(i) =>
        var was := grants[i].plan;
        if hold.plan.Some? && hold.plan.value != was {
          Revoke(i, hold.occurredAt);
          done := AddGrant(StripeGrant(org, subscription, hold.plan.value, hold.occurredAt, hold.expiresAt));
        } else {
          SetExpiry(i, hold.expiresAt);
          done := Ok(());
        }
      case None =>
        done := Ok(());
        if hold.create && hold.plan.Some? {
          done := AddGrant(StripeGrant(org, subscription, hold.plan.value, hold.occurredAt, hold.expiresAt));
        }
    }

    method Reschedule(org: nat, subscription: string, expiresAt: int)
      modifies this`grants
      ensures View() == Rescheduled(old(View()), org, subscription, expiresAt)
    {
      var held := FindProviderGrant(org, subscription);
      if held.Some? { SetExpiry(held.value, Some(expiresAt)); }
    }

    method StartSubscription(org: nat, subscription: string, plan: Plan, at: int) returns (done: Result<(), Failure>)
      modifies this`grants
      ensures (View(), done) == Started(old(View()), org, subscription, plan, at)
    {
      done := Ok(());
      var held := FindProviderGrant(org, subscription);
      if held.None? { done := AddGrant(StripeGrant(org, subscription, plan, at, Some(WithGrace(at)))); }
    }

    method FulfilCheckout(p: Purchase, lines: seq<(string, int)>) returns (done: Result<(), Failure>)
      modifies this`grants, this`credits
      ensures (View(), done) == LinesBought(prices, old(View()), p, lines)
    {
      var i := 0;
      while i < |lines|
        invariant 0 <= i <= |lines|
        invariant LinesBought(prices, old(View()), p, lines) == LinesBought(prices, View(), p, lines[i..])
      {
        assert lines[i..][0] == lines[i] && lines[i..][1..] == lines[i + 1..];
        var (price, quantity) := lines[i];
        if price in prices {
          var key := prices[price];
          if PackSize(key).Some? {
            CreditMoves(p, PackMoves(quantity, PackSize(key).value));
          } else if p.subscription.None? {
            return Err(Unreadable);
          } else if PlanOf(key).Some? {
            done := StartSubscription(p.org, p.subscription.value, PlanOf(key).value, p.occurredAt);
            if done.Err? { return; }
          }
        }
        i := i + 1;
      }
      done := Ok(());
    }

    method Webhook(e: Delivery) returns (done: Result<(), Failure>)
      modifies this`grants, this`credits
      ensures (View(), done) == Delivered(prices, old(View()), e)
    {
      done := Ok(());
      match e
      case CheckoutCompleted(org, unpaid, session, lines, subscription, created) =>
        if !unpaid && org.Some? { done := FulfilCheckout(PurchaseOf(e), lines); }
      case InvoicePaid(org, subscription, price, periods, header, created) =>
        if org.Some? && subscription.Some? {
          done := HoldPlan(org.value, subscription.value, PaidHold(prices, e));
        }
      case InvoiceFailed(org, subscription, created) =>
        if org.Some? && subscription.Some? { Reschedule(org.value, subscription.value, WithGrace(At(created))); }
      case SubscriptionChanged(org, subscription, status, deleted, periodEnd, endedAt, price, created) =>
        if org.Some? {
          if subscription.None? || status.None? { return Err(Unreadable); }
          done := HoldPlan(org.value, subscription.value, ChangedHold(prices, e));
        }
    }

    /** Ends a refunded plan at this instant, for the organisation its charge resolved to, if any. */
    method EndPlanNow(org: Option<nat>, subscription: string, now: int)
      modifies this`grants
      ensures View() == Happened(prices, old(View()), PlanEnded(org, Some(subscription), now))
    {
      if org.Some? { Reschedule(org.value, subscription, now); }
    }
  }

  // ------------------------------------------------------------ what a row keeps of its history

  ghost predicate RowKept(was: Grant, now: Grant, stamps: set<int>) {
    if was.revokedAt.Some? then now == was
    else now == was.(expiresAt := now.expiresAt, revokedAt := now.revokedAt)
         && (now.revokedAt.Some? ==> now.revokedAt.value in stamps)
  }

  ghost predicate RowNew(g: Grant, stamps: set<int>) {
    g.grantor.Stripe? && g.source.Some? && g.grantedAt in stamps && (g.revokedAt.Some? ==> g.revokedAt.value in stamps)
  }

  /** What the tables may have become: rows only added, each stamped, and no revoked row or credit ever touched. */
  ghost predicate Grown(s: Store, t: Store, stamps: set<int>) {
    && |s.grants| <= |t.grants| && s.credits <= t.credits
    && (forall i | 0 <= i < |s.grants| :: RowKept(s.grants[i], t.grants[i], stamps))
    && (forall i | |s.grants| <= i < |t.grants| :: RowNew(t.grants[i], stamps))
    && (forall i | |s.credits| <= i < |t.credits| ::
          t.credits[i].at in stamps && t.credits[i].expiresAt == Saturate(t.credits[i].at + 365 * 24 * 3_600_000))
  }

  lemma SameGrown(s: Store, stamps: set<int>)
    ensures Grown(s, s, stamps)
  {
  }

  lemma HeldGrown(s: Store, org: nat, subscription: string, hold: Hold)
    ensures Grown(s, Held(s, org, subscription, hold).0, {hold.occurredAt})
  {
  }

  lemma RescheduledGrown(s: Store, org: nat, subscription: string, expiresAt: int, stamps: set<int>)
    ensures Grown(s, Rescheduled(s, org, subscription, expiresAt), stamps)
  {
  }

  lemma GrownOn(s: Store, t: Store, u: Store, stamps: set<int>)
    requires Grown(s, t, stamps) && Grown(t, u, stamps)
    ensures Grown(s, u, stamps)
  {
    forall i | 0 <= i < |s.grants| ensures RowKept(s.grants[i], u.grants[i], stamps) {
      assert RowKept(s.grants[i], t.grants[i], stamps) && RowKept(t.grants[i], u.grants[i], stamps);
    }
    forall i | |s.grants| <= i < |u.grants| ensures RowNew(u.grants[i], stamps) {
      if i < |t.grants| { assert RowNew(t.grants[i], stamps) && RowKept(t.grants[i], u.grants[i], stamps); }
    }
    assert forall i | 0 <= i < |t.credits| :: u.credits[i] == t.credits[i];
  }

  lemma GrownWider(s: Store, t: Store, stamps: set<int>, more: set<int>)
    requires Grown(s, t, stamps) && stamps <= more
    ensures Grown(s, t, more)
  {
  }

  lemma {:induction false} LinesGrown(prices: PriceMap, s: Store, p: Purchase, lines: seq<(string, int)>)
    ensures Grown(s, LinesBought(prices, s, p, lines).0, {p.occurredAt})
    decreases |lines|
  {
    if lines == [] {
      SameGrown(s, {p.occurredAt});
    } else {
      var (t, done) := LineBought(prices, s, p, lines[0]);
      assert Grown(s, t, {p.occurredAt});
      if done.Ok? {
        LinesGrown(prices, t, p, lines[1..]);
        GrownOn(s, t, LinesBought(prices, t, p, lines[1..]).0, {p.occurredAt});
      }
    }
  }

  lemma DeliveredGrown(prices: PriceMap, s: Store, e: Delivery)
    ensures Grown(s, Delivered(prices, s, e).0, {At(e.created)})
  {
    hide Held, LinesBought, Rescheduled, Grown;
    SameGrown(s, {At(e.created)});
    match e
    case CheckoutCompleted(org, unpaid, session, lines, subscription, created) =>
      if !unpaid && org.Some? { LinesGrown(prices, s, PurchaseOf(e), lines); }
    case InvoicePaid(org, subscription, price, periods, header, created) =>
      if org.Some? && subscription.Some? { HeldGrown(s, org.value, subscription.value, PaidHold(prices, e)); }
    case InvoiceFailed(org, subscription, created) =>
      if org.Some? && subscription.Some? {
        RescheduledGrown(s, org.value, subscription.value, WithGrace(At(created)), {At(created)});
      }
    case SubscriptionChanged(org, subscription, status, deleted, periodEnd, endedAt, price, created) =>
      if org.Some? && subscription.Some? && status.Some? {
        HeldGrown(s, org.value, subscription.value, ChangedHold(prices, e));
      }
  }

  // ------------------------------------------------------------ one live grant per subscription

  ghost predicate Live(g: Grant, source: string) {
    g.source == Some(source) && g.revokedAt.None?
  }

  /** No two live rows name one subscription, whoever they belong to. */
  ghost predicate Unique(grants: seq<Grant>) {
    forall i, j, source: string | 0 <= i < j < |grants| && Live(grants[i], source) && Live(grants[j], source) :: false
  }

  lemma InsertedUnique(s: Store, g: Grant)
    requires Unique(s.grants)
    ensures Unique(Inserted(s, g).0.grants)
  {
  }

  lemma HeldUnique(s: Store, org: nat, subscription: string, hold: Hold)
    requires Unique(s.grants)
    ensures Unique(Held(s, org, subscription, hold).0.grants)
  {
    var held := ProviderGrant(s.grants, org, subscription);
    if held.Some? {
      var revoked := Revoked(s, held.value, hold.occurredAt);
      assert Unique(revoked.grants);
      assert Unique(ExpirySet(s, held.value, hold.expiresAt).grants);
      if hold.plan.Some? {
        InsertedUnique(revoked, StripeGrant(org, subscription, hold.plan.value, hold.occurredAt, hold.expiresAt));
      }
    } else if hold.create && hold.plan.Some? {
      InsertedUnique(s, StripeGrant(org, subscription, hold.plan.value, hold.occurredAt, hold.expiresAt));
    }
  }

  lemma {:induction false} LinesUnique(prices: PriceMap, s: Store, p: Purchase, lines: seq<(string, int)>)
    requires Unique(s.grants)
    ensures Unique(LinesBought(prices, s, p, lines).0.grants)
    decreases |lines|
  {
    if lines != [] {
      var (t, done) := LineBought(prices, s, p, lines[0]);
      if t.grants != s.grants {
        var plan := PlanOf(prices[lines[0].0]).value;
        InsertedUnique(s, StripeGrant(p.org, p.subscription.value, plan, p.occurredAt, Some(WithGrace(p.occurredAt))));
      }
      if done.Ok? { LinesUnique(prices, t, p, lines[1..]); }
    }
  }

  lemma HappenedUnique(prices: PriceMap, s: Store, e: Event)
    requires Unique(s.grants)
    ensures Unique(Happened(prices, s, e).grants)
  {
    match e
    case CheckoutCompleted(org, unpaid, session, lines, subscription, created) =>
      if !unpaid && org.Some? { LinesUnique(prices, s, PurchaseOf(e), lines); }
    case InvoicePaid(org, subscription, price, periods, header, created) =>
      if org.Some? && subscription.Some? { HeldUnique(s, org.value, subscription.value, PaidHold(prices, e)); }
    case SubscriptionChanged(org, subscription, status, deleted, periodEnd, endedAt, price, created) =>
      if org.Some? && subscription.Some? && status.Some? {
        HeldUnique(s, org.value, subscription.value, ChangedHold(prices, e));
      }
    case _ =>
  }

  /** The store after a run of deliveries, acknowledged or not, and of plans ended now. */
  function Run(prices: PriceMap, s: Store, events: seq<Event>): Store
    decreases |events|
  {
    if events == [] then s else Run(prices, Happened(prices, s, events[0]), events[1..])
  }

  /** The instants a run's deliveries were made at. */
  function Stamps(events: seq<Event>): set<int> {
    set e <- events | !e.PlanEnded? :: At(e.created)
  }

  /**
   Over every run the tables keep their history: no row goes, a revoked one
   never changes again, and every grant, revocation and credit bears the
   instant of a delivery, a credit for a year from it.
   */
  lemma {:induction false} HistoryKept(prices: PriceMap, s: Store, events: seq<Event>)
    ensures Grown(s, Run(prices, s, events), Stamps(events))
    decreases |events|
  {
    hide Grown, Delivered;
    if events == [] {
      SameGrown(s, Stamps(events));
    } else {
      var t := Happened(prices, s, events[0]);
      assert events[0] in events && forall e <- events[1..] :: e in events;
      if !events[0].PlanEnded? {
        DeliveredGrown(prices, s, events[0]);
        GrownWider(s, t, {At(events[0].created)}, Stamps(events));
      } else {
        SameGrown(s, Stamps(events));
        if events[0].org.Some? && events[0].subscription.Some? {
          RescheduledGrown(s, events[0].org.value, events[0].subscription.value, events[0].now, Stamps(events));
        }
      }
      HistoryKept(prices, t, events[1..]);
      GrownWider(t, Run(prices, t, events[1..]), Stamps(events[1..]), Stamps(events));
      GrownOn(s, t, Run(prices, t, events[1..]), Stamps(events));
    }
  }

  /** Whatever Stripe delivers, in whatever order, a subscription has at most one unrevoked grant. */
  lemma {:induction false} OneLiveGrant(prices: PriceMap, s: Store, events: seq<Event>)
    requires Unique(s.grants)
    ensures Unique(Run(prices, s, events).grants)
    decreases |events|
  {
    if events != [] {
      HappenedUnique(prices, s, events[0]);
      OneLiveGrant(prices, Happened(prices, s, events[0]), events[1..]);
    }
  }

  // ------------------------------------------------------------ the table refines one cell

  /** What a subscription's live grant entitles to, which is all the product reads of it. */
  datatype Cell = Cell(plan: Plan, expiresAt: Option<int>)

  function CellOf(s: Store, org: nat, source: string): Option<Cell> {
    var found := ProviderGrant(s.grants, org, source);
    if found.None? then None else Some(Cell(s.grants[found.value].plan, s.grants[found.value].expiresAt))
  }

  function CellHeld(cell: Option<Cell>, hold: Hold): Option<Cell> {
    match cell
    case Some(c) => Some(Cell(if hold.plan.Some? then hold.plan.value else c.plan, hold.expiresAt))
    case None => if hold.create && hold.plan.Some? then Some(Cell(hold.plan.value, hold.expiresAt)) else None
  }

  /** The plan a checkout's lines start: that of the first line that sells one. */
  function PlanBought(prices: PriceMap, lines: seq<(string, int)>): Option<Plan> {
    if lines == [] then None
    else OrElse(PlanSold(prices, Some(lines[0].0)), PlanBought(prices, lines[1..]))
  }

  /** Whose subscription an event speaks of, where it reaches one. */
  function Speaks(e: Event): Option<(nat, string)> {
    if e.CheckoutCompleted? && e.unpaid then None
    else if e.org.None? || e.subscription.None? then None
    else if e.SubscriptionChanged? && e.status.None? then None
    else Some((e.org.value, e.subscription.value))
  }

  /** What an event makes of the cell it speaks of. */
  function CellStep(prices: PriceMap, cell: Option<Cell>, e: Event): Option<Cell>
    requires Speaks(e).Some?
  {
    match e
    case CheckoutCompleted(_, _, _, lines, _, created) =>
      var plan := PlanBought(prices, lines);
      if cell.Some? || plan.None? then cell else Some(Cell(plan.value, Some(WithGrace(At(created)))))
    case InvoicePaid(_, _, _, _, _, _) => CellHeld(cell, PaidHold(prices, e))
    case InvoiceFailed(_, _, created) =>
      if cell.None? then None else Some(cell.value.(expiresAt := Some(WithGrace(At(created)))))
    case SubscriptionChanged(_, _, _, _, _, _, _, _) => CellHeld(cell, ChangedHold(prices, e))
    case PlanEnded(_, _, now) =>
      if cell.None? then None else Some(cell.value.(expiresAt := Some(now)))
  }

  /** No live row names this source but a provider's grant to this organisation. */
  ghost predicate Own(grants: seq<Grant>, org: nat, source: string) {
    forall g <- grants :: Live(g, source) ==> Provides(g, org, source)
  }

  /** A change to the table, as one subscription sees it. */
  ghost predicate Sees(s: Store, t: Store, org: nat, source: string, cell: Option<Cell>) {
    Unique(t.grants) && Own(t.grants, org, source) && CellOf(t, org, source) == cell
  }

  lemma ProviderGrantIs(grants: seq<Grant>, org: nat, source: string, i: nat)
    requires Unique(grants) && i < |grants| && Provides(grants[i], org, source)
    ensures ProviderGrant(grants, org, source) == Some(i)
  {
    assert grants[i] in grants;
    var found := ProviderGrant(grants, org, source).value;
    assert Live(grants[i], source) && Live(grants[found], source);
  }

  lemma NotTaken(grants: seq<Grant>, org: nat, source: string)
    requires Own(grants, org, source) && ProviderGrant(grants, org, source).None?
    ensures !Taken(grants, source)
  {
    if Taken(grants, source) {
      var i :| 0 <= i < |grants| && grants[i].source == Some(source) && grants[i].revokedAt.None?;
      assert grants[i] in grants && Live(grants[i], source);
    }
  }

  lemma InsertSees(s: Store, g: Grant, org: nat, source: string)
    requires Unique(s.grants) && Own(s.grants, org, source)
    requires g.source.Some? && g.revokedAt.None?
    requires g.source == Some(source) ==> Provides(g, org, source) && ProviderGrant(s.grants, org, source).None?
    ensures Sees(s, Inserted(s, g).0, org, source,
                 if g.source == Some(source) then Some(Cell(g.plan, g.expiresAt)) else CellOf(s, org, source))
    ensures g.source == Some(source) ==> Inserted(s, g).1 == Ok(())
  {
    InsertedUnique(s, g);
    var t := Inserted(s, g).0;
    if g.source == Some(source) {
      NotTaken(s.grants, org, source);
      ProviderGrantIs(t.grants, org, source, |s.grants|);
    } else if t != s {
      assert t.grants[..|s.grants|] == s.grants;
    }
  }

  lemma UpdateSees(s: Store, i: nat, g: Grant, org: nat, source: string)
    requires Unique(s.grants) && Own(s.grants, org, source) && i < |s.grants|
    requires s.grants[i].source.Some?
    requires g == s.grants[i].(expiresAt := g.expiresAt, revokedAt := g.revokedAt)
    requires g.revokedAt.None? ==> s.grants[i].revokedAt.None?
    ensures var t := s.(grants := s.grants[i := g]);
            Sees(s, t, org, source,
                 if Provides(s.grants[i], org, source) then
                   (if g.revokedAt.Some? then None else Some(Cell(g.plan, g.expiresAt)))
                 else CellOf(s, org, source))
  {
    var t := s.(grants := s.grants[i := g]);
    assert Unique(t.grants);
    forall h <- t.grants ensures Live(h, source) ==> Provides(h, org, source) {
      var k :| 0 <= k < |t.grants| && t.grants[k] == h;
      assert s.grants[k] in s.grants;
    }
    var was := ProviderGrant(s.grants, org, source);
    if Provides(s.grants[i], org, source) {
      ProviderGrantIs(s.grants, org, source, i);
      if g.revokedAt.None? {
        ProviderGrantIs(t.grants, org, source, i);
      } else {
        var now := ProviderGrant(t.grants, org, source);
        if now.Some? { assert Live(s.grants[i], source) && Live(s.grants[now.value], source); }
      }
    } else if was.Some? {
      ProviderGrantIs(t.grants, org, source, was.value);
    } else {
      var now := ProviderGrant(t.grants, org, source);
      if now.Some? { assert s.grants[now.value] in s.grants; }
    }
  }

  lemma HeldSees(s: Store, org: nat, source: string, to: nat, subscription: string, hold: Hold)
    requires Unique(s.grants) && Own(s.grants, org, source)
    requires subscription == source ==> to == org
    ensures var (t, done) := Held(s, to, subscription, hold);
            && Sees(s, t, org, source,
                    if subscription == source then CellHeld(CellOf(s, org, source), hold) else CellOf(s, org, source))
            && (subscription == source ==> done.Ok?)
  {
    var held := ProviderGrant(s.grants, to, subscription);
    var g := StripeGrant(to, subscription, if hold.plan.Some? then hold.plan.value else Starter,
                         hold.occurredAt, hold.expiresAt);
    if held.Some? {
      var i := held.value;
      if hold.plan.Some? && hold.plan.value != s.grants[i].plan {
        UpdateSees(s, i, s.grants[i].(revokedAt := Some(hold.occurredAt)), org, source);
        var revoked := Revoked(s, i, hold.occurredAt);
        InsertSees(revoked, g, org, source);
      } else {
        UpdateSees(s, i, s.grants[i].(expiresAt := hold.expiresAt), org, source);
      }
    } else if hold.create && hold.plan.Some? {
      InsertSees(s, g, org, source);
    }
  }

  lemma RescheduledSees(s: Store, org: nat, source: string, to: nat, subscription: string, expiresAt: int)
    requires Unique(s.grants) && Own(s.grants, org, source)
    requires subscription == source ==> to == org
    ensures Sees(s, Rescheduled(s, to, subscription, expiresAt), org, source,
                 var cell := CellOf(s, org, source);
                 if subscription == source && cell.Some? then Some(cell.value.(expiresAt := Some(expiresAt))) else cell)
  {
    var held := ProviderGrant(s.grants, to, subscription);
    if held.Some? {
      UpdateSees(s, held.value, s.grants[held.value].(expiresAt := Some(expiresAt)), org, source);
    }
  }

  lemma {:induction false} LinesSee(
    prices: PriceMap, s: Store, org: nat, source: string, p: Purchase, lines: seq<(string, int)>)
    requires Unique(s.grants) && Own(s.grants, org, source)
    requires p.subscription == Some(source) ==> p.org == org
    ensures Sees(s, LinesBought(prices, s, p, lines).0, org, source,
                 var cell := CellOf(s, org, source);
                 var plan := PlanBought(prices, lines);
                 if p.subscription == Some(source) && cell.None? && plan.Some? then
                   Some(Cell(plan.value, Some(WithGrace(p.occurredAt))))
                 else cell)
    decreases |lines|
  {
    if lines != [] {
      var (t, done) := LineBought(prices, s, p, lines[0]);
      if t.grants != s.grants {
        var plan := PlanOf(prices[lines[0].0]).value;
        InsertSees(s, StripeGrant(p.org, p.subscription.value, plan, p.occurredAt, Some(WithGrace(p.occurredAt))),
                   org, source);
      }
      if p.subscription == Some(source) && CellOf(s, org, source).None? && PlanSold(prices, Some(lines[0].0)).Some? {
        NotTaken(s.grants, org, source);
      }
      assert CellOf(t, org, source) == CellOf(s, org, source) || t.grants != s.grants;
      if done.Ok? { LinesSee(prices, t, org, source, p, lines[1..]); }
    }
  }

  /**
   One delivery moves a subscription's cell as `CellStep` says when it speaks
   of that subscription, and leaves it alone otherwise. No other event touches
   it: the grant table with its history of revoked rows is one cell.
   */
  lemma TableRefinesCell(prices: PriceMap, s: Store, org: nat, source: string, e: Event)
    requires Unique(s.grants) && Own(s.grants, org, source)
    requires e.subscription == Some(source) && e.org.Some? ==> e.org == Some(org)
    ensures Sees(s, Happened(prices, s, e), org, source,
                 if Speaks(e) == Some((org, source)) then CellStep(prices, CellOf(s, org, source), e)
                 else CellOf(s, org, source))
  {
    match e
    case CheckoutCompleted(to, unpaid, session, lines, subscription, created) =>
      if !unpaid && to.Some? { LinesSee(prices, s, org, source, PurchaseOf(e), lines); }
    case InvoicePaid(to, subscription, price, periods, header, created) =>
      if to.Some? && subscription.Some? {
        HeldSees(s, org, source, to.value, subscription.value, PaidHold(prices, e));
      }
    case InvoiceFailed(to, subscription, created) =>
      if to.Some? && subscription.Some? {
        RescheduledSees(s, org, source, to.value, subscription.value, WithGrace(At(created)));
      }
    case SubscriptionChanged(to, subscription, status, deleted, periodEnd, endedAt, price, created) =>
      if to.Some? && subscription.Some? && status.Some? {
        HeldSees(s, org, source, to.value, subscription.value, ChangedHold(prices, e));
      }
    case PlanEnded(to, subscription, now) =>
      if to.Some? && subscription.Some? {
        RescheduledSees(s, org, source, to.value, subscription.value, now);
      }
  }

  // ------------------------------------------------------------ one delivery, in Stripe's own fields

  function Instant(seconds: Option<int>): Option<int> {
    if seconds.None? then None else Some(At(seconds.value))
  }

  function InstantAndGrace(seconds: Option<int>): Option<int> {
    if seconds.None? then None else Some(WithGrace(At(seconds.value)))
  }

  /** Seconds come out as milliseconds, and a grace as a day of them, wherever the column can hold them. */
  lemma InstantsAreMillis(seconds: int)
    requires I64_MIN <= seconds * 1_000 && seconds * 1_000 + 86_400_000 <= I64_MAX
    ensures At(seconds) == seconds * 1_000 && WithGrace(At(seconds)) == seconds * 1_000 + 86_400_000
  {
  }

  /**
   What a change of a subscription makes of its grant. A deletion ends it at
   the instant Stripe ended it, or where none is stated at the period's end;
   an entitling status runs it to the period's end and a day's grace; any other
   to the period's end. It is created by an active or trialing subscription of
   a mapped price alone.
   */
  lemma ChangeGives(prices: PriceMap, s: Store, org: nat, source: string, e: Delivery)
    requires Unique(s.grants) && Own(s.grants, org, source)
    requires e.SubscriptionChanged? && Speaks(e) == Some((org, source))
    ensures var (was, now) := (CellOf(s, org, source), CellOf(Delivered(prices, s, e).0, org, source));
            var entitling := !e.deleted && (e.status == Some("active") || e.status == Some("trialing"));
            && (now.Some? <==> was.Some? || (entitling && PlanSold(prices, e.price).Some?))
            && (now.Some? && e.deleted && e.endedAt.Some? ==> now.value.expiresAt == Some(At(e.endedAt.value)))
            && (now.Some? && e.deleted && e.endedAt.None? ==> now.value.expiresAt == Instant(e.periodEnd))
            && (now.Some? && entitling ==> now.value.expiresAt == InstantAndGrace(e.periodEnd))
            && (now.Some? && !e.deleted && !entitling ==> now.value.expiresAt == Instant(e.periodEnd))
            && (now.Some? && PlanSold(prices, e.price).Some? ==> now.value.plan == PlanSold(prices, e.price).value)
            && (was.Some? && PlanSold(prices, e.price).None? ==> now.value.plan == was.value.plan)
  {
    TableRefinesCell(prices, s, org, source, e);
  }

  /** A paid invoice runs the grant to the latest end its lines state, or its header does, and a day's grace. */
  lemma PaymentGives(prices: PriceMap, s: Store, org: nat, source: string, e: Delivery, end: Option<int>)
    requires Unique(s.grants) && Own(s.grants, org, source)
    requires e.InvoicePaid? && Speaks(e) == Some((org, source))
    requires if exists p <- e.periods :: p.end.Some?
             then end.Some? && (exists p <- e.periods :: p.end == end)
                  && forall p <- e.periods :: p.end.Some? ==> p.end.value <= end.value
             else end == e.header.end
    ensures var (was, now) := (CellOf(s, org, source), CellOf(Delivered(prices, s, e).0, org, source));
            && (now.Some? <==> was.Some? || PlanSold(prices, e.price).Some?)
            && (now.Some? ==> now.value.expiresAt == InstantAndGrace(end))
            && (PlanSold(prices, e.price).Some? ==> now.value.plan == PlanSold(prices, e.price).value)
            && (PlanSold(prices, e.price).None? && was.Some? ==> now.value.plan == was.value.plan)
  {
    TableRefinesCell(prices, s, org, source, e);
    var latest := Latest(e.periods);
    if latest.Some? {
      assert exists p <- e.periods :: p.end.Some?;
    }
  }

  /** A failed invoice leaves the plan and gives the grant a day; it creates none. */
  lemma FailureGives(prices: PriceMap, s: Store, org: nat, source: string, e: Delivery)
    requires Unique(s.grants) && Own(s.grants, org, source)
    requires e.InvoiceFailed? && Speaks(e) == Some((org, source))
    ensures var (was, now) := (CellOf(s, org, source), CellOf(Delivered(prices, s, e).0, org, source));
            if was.None? then now.None? else now == Some(Cell(was.value.plan, Some(WithGrace(At(e.created)))))
  {
    TableRefinesCell(prices, s, org, source, e);
  }

  lemma {:induction false} FirstPlan(prices: PriceMap, lines: seq<(string, int)>, k: nat)
    requires k <= |lines| && forall i | 0 <= i < k :: PlanSold(prices, Some(lines[i].0)).None?
    requires k < |lines| ==> PlanSold(prices, Some(lines[k].0)).Some?
    ensures PlanBought(prices, lines) == if k == |lines| then None else PlanSold(prices, Some(lines[k].0))
  {
    if k > 0 { FirstPlan(prices, lines[1..], k - 1); }
  }

  /** A checkout grants the first plan among its lines for a day, where the subscription has none yet. */
  lemma CheckoutGives(
    prices: PriceMap, s: Store, org: nat, source: string, e: Delivery, k: nat)
    requires Unique(s.grants) && Own(s.grants, org, source)
    requires e.CheckoutCompleted? && Speaks(e) == Some((org, source))
    requires k <= |e.lines| && forall i | 0 <= i < k :: PlanSold(prices, Some(e.lines[i].0)).None?
    requires k < |e.lines| ==> PlanSold(prices, Some(e.lines[k].0)).Some?
    ensures var (was, now) := (CellOf(s, org, source), CellOf(Delivered(prices, s, e).0, org, source));
            if was.Some? || k == |e.lines| then now == was
            else now == Some(Cell(PlanSold(prices, Some(e.lines[k].0)).value, Some(WithGrace(At(e.created)))))
  {
    TableRefinesCell(prices, s, org, source, e);
    FirstPlan(prices, e.lines, k);
  }

  /** Whether any of these lines sells a plan. */
  predicate SellsPlan(prices: PriceMap, lines: seq<(string, int)>) {
    exists l <- lines :: PlanSold(prices, Some(l.0)).Some?
  }

  /** Whether a plan line of this purchase fails: no subscription to start, or one another live row already names. */
  predicate Refuses(s: Store, p: Purchase) {
    || p.subscription.None?
    || (ProviderGrant(s.grants, p.org, p.subscription.value).None? && Taken(s.grants, p.subscription.value))
  }

  lemma {:induction false} LinesRefusedIff(prices: PriceMap, s: Store, p: Purchase, lines: seq<(string, int)>)
    ensures LinesBought(prices, s, p, lines).1
         == if !(Refuses(s, p) && SellsPlan(prices, lines)) then Ok(())
            else Err(if p.subscription.None? then Unreadable else SourceTaken)
    decreases |lines|
  {
    if lines != [] {
      var (t, done) := LineBought(prices, s, p, lines[0]);
      assert lines == [lines[0]] + lines[1..];
      if t.grants != s.grants { assert Provides(t.grants[|s.grants|], p.org, p.subscription.value); }
      if done.Ok? { LinesRefusedIff(prices, t, p, lines[1..]); }
    }
  }

  lemma {:induction false} LinesNotTaken(prices: PriceMap, s: Store, p: Purchase, lines: seq<(string, int)>)
    requires p.subscription.None? || !Refuses(s, p)
    ensures LinesBought(prices, s, p, lines).1 != Err(SourceTaken)
    decreases |lines|
  {
    if lines != [] {
      var (t, done) := LineBought(prices, s, p, lines[0]);
      if t.grants != s.grants { assert Provides(t.grants[|s.grants|], p.org, p.subscription.value); }
      if done.Ok? { LinesNotTaken(prices, t, p, lines[1..]); }
    }
  }

  /** The unique index never refuses a delivery of a subscription whose rows are its organisation's own. */
  lemma NotRefusedAsTaken(prices: PriceMap, s: Store, org: nat, source: string, e: Delivery)
    requires Unique(s.grants) && Own(s.grants, org, source)
    requires e.subscription == Some(source) && (e.org.Some? ==> e.org == Some(org))
    ensures Delivered(prices, s, e).1 != Err(SourceTaken)
  {
    if ProviderGrant(s.grants, org, source).None? { NotTaken(s.grants, org, source); }
    match e
    case CheckoutCompleted(to, unpaid, session, lines, subscription, created) =>
      if !unpaid && to.Some? { LinesNotTaken(prices, s, PurchaseOf(e), lines); }
    case InvoicePaid(to, subscription, price, periods, header, created) =>
      if to.Some? { HeldSees(s, org, source, org, source, PaidHold(prices, e)); }
    case InvoiceFailed(to, subscription, created) =>
    case SubscriptionChanged(to, subscription, status, deleted, periodEnd, endedAt, price, created) =>
      if to.Some? && status.Some? { HeldSees(s, org, source, org, source, ChangedHold(prices, e)); }
  }

  /**
   A delivery is refused where it cannot be read: a plan bought, or a
   subscription changed, that names none, or no status. An own subscription's
   is refused for nothing else, and one of nobody known, or not paid, is
   acknowledged and does nothing.
   */
  lemma RefusedIff(prices: PriceMap, s: Store, org: nat, source: string, e: Delivery)
    requires Unique(s.grants) && Own(s.grants, org, source)
    requires e.subscription.Some? ==> e.subscription == Some(source) && (e.org.Some? ==> e.org == Some(org))
    ensures var idle := e.org.None? || (e.CheckoutCompleted? && e.unpaid);
            && (idle ==> Delivered(prices, s, e) == (s, Ok(())))
            && (Delivered(prices, s, e).1.Err? <==>
                  && !idle
                  && ((e.CheckoutCompleted? && e.subscription.None? && SellsPlan(prices, e.lines))
                      || (e.SubscriptionChanged? && (e.subscription.None? || e.status.None?))))
            && (Delivered(prices, s, e).1.Err? ==> Delivered(prices, s, e).1.error == Unreadable)
  {
    if e.subscription.Some? { NotRefusedAsTaken(prices, s, org, source, e); }
    if e.CheckoutCompleted? && e.org.Some? { LinesRefusedIff(prices, s, PurchaseOf(e), e.lines); }
  }

  function CellRun(prices: PriceMap, cell: Option<Cell>, org: nat, source: string, events: seq<Event>): Option<Cell>
    decreases |events|
  {
    if events == [] then cell
    else
      CellRun(prices,
              if Speaks(events[0]) == Some((org, source)) then CellStep(prices, cell, events[0]) else cell,
              org, source, events[1..])
  }

  /** Every delivery that names this subscription names this organisation. */
  ghost predicate SpokenBy(events: seq<Event>, org: nat, source: string) {
    forall e <- events :: e.subscription == Some(source) && e.org.Some? ==> e.org == Some(org)
  }

  lemma {:induction false} RunRefinesCell(prices: PriceMap, s: Store, org: nat, source: string, events: seq<Event>)
    requires Unique(s.grants) && Own(s.grants, org, source) && SpokenBy(events, org, source)
    ensures Sees(s, Run(prices, s, events), org, source,
                 CellRun(prices, CellOf(s, org, source), org, source, events))
    decreases |events|
  {
    if events != [] {
      TableRefinesCell(prices, s, org, source, events[0]);
      assert events[0] in events;
      RunRefinesCell(prices, Happened(prices, s, events[0]), org, source, events[1..]);
    }
  }

  /** Nor, in any run, any delivery of it: at most one live grant is kept by writing none too many, not by the index. */
  lemma NeverRefusedAsTaken(prices: PriceMap, s: Store, org: nat, source: string, events: seq<Event>, k: nat)
    requires Unique(s.grants) && Own(s.grants, org, source) && SpokenBy(events, org, source)
    requires k < |events| && !events[k].PlanEnded? && events[k].subscription == Some(source)
    ensures Delivered(prices, Run(prices, s, events[..k]), events[k]).1 != Err(SourceTaken)
  {
    assert events[k] in events;
    RunRefinesCell(prices, s, org, source, events[..k]);
    NotRefusedAsTaken(prices, Run(prices, s, events[..k]), org, source, events[k]);
  }

  // ------------------------------------------------------------ what a run comes to

  /** The deliveries that speak of one subscription. */
  function Mine(events: seq<Event>, org: nat, source: string): (mine: seq<Event>)
    ensures forall e <- mine :: Speaks(e) == Some((org, source))
  {
    if events == [] then []
    else
      var rest := Mine(events[..|events| - 1], org, source);
      var e := events[|events| - 1];
      if Speaks(e) == Some((org, source)) then rest + [e] else rest
  }

  /** What an event would grant a subscription that has no grant. */
  function Creates(prices: PriceMap, e: Event): Option<Cell> {
    match e
    case CheckoutCompleted(_, _, _, lines, _, created) =>
      var plan := PlanBought(prices, lines);
      if plan.Some? then Some(Cell(plan.value, Some(WithGrace(At(created))))) else None
    case InvoicePaid(_, _, price, _, _, _) =>
      var plan := PlanSold(prices, price);
      if plan.Some? then Some(Cell(plan.value, PaidHold(prices, e).expiresAt)) else None
    case SubscriptionChanged(_, _, status, deleted, _, _, price, _) =>
      var plan := PlanSold(prices, price);
      if status.Some? && status.value in ENTITLING && !deleted && plan.Some? then
        Some(Cell(plan.value, ChangedHold(prices, e).expiresAt))
      else None
    case _ => None
  }

  /** The plan an event puts a live grant on, where it names a mapped price. */
  function Renames(prices: PriceMap, e: Event): Option<Plan> {
    match e
    case InvoicePaid(_, _, price, _, _, _) => PlanSold(prices, price)
    case SubscriptionChanged(_, _, _, _, _, _, price, _) => PlanSold(prices, price)
    case _ => None
  }

  /** The expiry an event puts a live grant on, where it sets one at all. */
  function Reschedules(prices: PriceMap, e: Event): Option<Option<int>>
    requires Speaks(e).Some?
  {
    match e
    case CheckoutCompleted(_, _, _, _, _, _) => None
    case InvoicePaid(_, _, _, _, _, _) => Some(PaidHold(prices, e).expiresAt)
    case InvoiceFailed(_, _, created) => Some(Some(WithGrace(At(created))))
    case SubscriptionChanged(_, _, _, _, _, _, _, _) => Some(ChangedHold(prices, e).expiresAt)
    case PlanEnded(_, _, now) => Some(Some(now))
  }

  function LatestPlan(prices: PriceMap, events: seq<Event>, first: Plan): Plan {
    if events == [] then first
    else
      var renamed := Renames(prices, events[|events| - 1]);
      if renamed.Some? then renamed.value else LatestPlan(prices, events[..|events| - 1], first)
  }

  function LatestExpiry(prices: PriceMap, events: seq<Event>, first: Option<int>): Option<int>
    requires forall e <- events :: Speaks(e).Some?
  {
    if events == [] then first
    else
      var moved := Reschedules(prices, events[|events| - 1]);
      if moved.Some? then moved.value else LatestExpiry(prices, events[..|events| - 1], first)
  }

  /** The last word on a subscription: who created its grant, who last named its plan, who last moved its end. */
  function LastWord(prices: PriceMap, events: seq<Event>): Option<Cell>
    requires forall e <- events :: Speaks(e).Some?
  {
    if events == [] then None
    else
      var created := Creates(prices, events[0]);
      if created.None? then LastWord(prices, events[1..])
      else
        Some(Cell(LatestPlan(prices, events[1..], created.value.plan),
                  LatestExpiry(prices, events[1..], created.value.expiresAt)))
  }

  lemma {:induction false} CellRunAppend(
    prices: PriceMap, cell: Option<Cell>, org: nat, source: string, a: seq<Event>, b: seq<Event>)
    ensures CellRun(prices, cell, org, source, a + b)
         == CellRun(prices, CellRun(prices, cell, org, source, a), org, source, b)
    decreases |a|
  {
    if a == [] {
      assert a + b == b;
    } else {
      assert (a + b)[1..] == a[1..] + b;
      CellRunAppend(prices, if Speaks(a[0]) == Some((org, source)) then CellStep(prices, cell, a[0]) else cell,
                    org, source, a[1..], b);
    }
  }

  lemma {:induction false} CellRunOfMine(
    prices: PriceMap, cell: Option<Cell>, org: nat, source: string, events: seq<Event>)
    ensures CellRun(prices, cell, org, source, events)
         == CellRun(prices, cell, org, source, Mine(events, org, source))
  {
    if events != [] {
      var front := events[..|events| - 1];
      var e := events[|events| - 1];
      assert events == front + [e];
      CellRunOfMine(prices, cell, org, source, front);
      CellRunAppend(prices, cell, org, source, front, [e]);
      CellRunAppend(prices, cell, org, source, Mine(front, org, source), [e]);
    }
  }

  lemma {:induction false} LiveRunIsLatest(
    prices: PriceMap, c: Cell, org: nat, source: string, events: seq<Event>)
    requires forall e <- events :: Speaks(e) == Some((org, source))
    ensures CellRun(prices, Some(c), org, source, events)
         == Some(Cell(LatestPlan(prices, events, c.plan), LatestExpiry(prices, events, c.expiresAt)))
  {
    if events != [] {
      var front := events[..|events| - 1];
      var e := events[|events| - 1];
      assert events == front + [e];
      assert e in events;
      LiveRunIsLatest(prices, c, org, source, front);
      CellRunAppend(prices, Some(c), org, source, front, [e]);
      var was := Cell(LatestPlan(prices, front, c.plan), LatestExpiry(prices, front, c.expiresAt));
      assert CellRun(prices, Some(was), org, source, [e]) == CellStep(prices, Some(was), e);
    }
  }

  lemma {:induction false} CellRunIsLastWord(prices: PriceMap, org: nat, source: string, events: seq<Event>)
    requires forall e <- events :: Speaks(e) == Some((org, source))
    ensures CellRun(prices, None, org, source, events) == LastWord(prices, events)
    decreases |events|
  {
    if events != [] {
      assert events[0] in events;
      var created := Creates(prices, events[0]);
      assert CellStep(prices, None, events[0]) == created;
      if created.None? {
        CellRunIsLastWord(prices, org, source, events[1..]);
      } else {
        LiveRunIsLatest(prices, created.value, org, source, events[1..]);
      }
    }
  }

  /**
   Over every run, a subscription's live grant names the plan of the latest
   mapped price since the event that created it and runs to the latest end
   any event since gave it; no grant exists unless an event that creates one
   was delivered.
   */
  lemma GrantIsLastWord(prices: PriceMap, s: Store, org: nat, source: string, events: seq<Event>)
    requires Unique(s.grants) && Own(s.grants, org, source) && CellOf(s, org, source).None?
    requires SpokenBy(events, org, source)
    ensures CellOf(Run(prices, s, events), org, source) == LastWord(prices, Mine(events, org, source))
  {
    RunRefinesCell(prices, s, org, source, events);
    CellRunOfMine(prices, None, org, source, events);
    CellRunIsLastWord(prices, org, source, Mine(events, org, source));
  }

  /** A grant exists after a run exactly when some delivery could create one; a deletion never does. */
  lemma {:induction false} LastWordExists(prices: PriceMap, events: seq<Event>)
    requires forall e <- events :: Speaks(e).Some?
    ensures LastWord(prices, events).Some? <==> exists e <- events :: Creates(prices, e).Some?
    ensures forall e <- events :: e.InvoiceFailed? || e.PlanEnded? || (e.SubscriptionChanged? && e.deleted) ==>
              Creates(prices, e).None?
    decreases |events|
  {
    if events != [] {
      LastWordExists(prices, events[1..]);
      assert events == [events[0]] + events[1..];
      assert events[0] in events;
    }
  }

  /**
   A subscription's checkout and its first paid invoice, in any order and
   with any repeats, leave the same grant: the plan both sell, to the end of
   the service period and its grace.
   */
  lemma {:induction false} CheckoutAndInvoiceConverge(
    prices: PriceMap, cell: Option<Cell>, org: nat, source: string,
    checkout: Event, invoice: Event, plan: Plan, events: seq<Event>)
    requires checkout.CheckoutCompleted? && Speaks(checkout) == Some((org, source))
    requires invoice.InvoicePaid? && Speaks(invoice) == Some((org, source))
    requires PlanBought(prices, checkout.lines) == Some(plan) && PlanSold(prices, invoice.price) == Some(plan)
    requires forall e <- events :: e == checkout || e == invoice
    requires invoice in events || cell == Some(Cell(plan, PaidHold(prices, invoice).expiresAt))
    ensures CellRun(prices, cell, org, source, events) == Some(Cell(plan, PaidHold(prices, invoice).expiresAt))
    decreases |events|
  {
    if events != [] {
      assert events[0] in events;
      assert forall e <- events[1..] :: e in events;
      assert events == [events[0]] + events[1..];
      var next := CellStep(prices, cell, events[0]);
      CheckoutAndInvoiceConverge(prices, next, org, source, checkout, invoice, plan, events[1..]);
    }
  }

  /** The same, of the stored grants: one unrevoked grant, whichever event came first. */
  lemma StoredGrantsConverge(
    prices: PriceMap, s: Store, org: nat, source: string,
    checkout: Event, invoice: Event, plan: Plan, end: int, events: seq<Event>)
    requires Unique(s.grants) && Own(s.grants, org, source)
    requires checkout.CheckoutCompleted? && Speaks(checkout) == Some((org, source))
    requires invoice.InvoicePaid? && Speaks(invoice) == Some((org, source)) && PeriodEnd(invoice) == Some(end)
    requires PlanBought(prices, checkout.lines) == Some(plan) && PlanSold(prices, invoice.price) == Some(plan)
    requires (forall e <- events :: e == checkout || e == invoice) && invoice in events
    ensures var t := Run(prices, s, events);
            && Unique(t.grants)
            && CellOf(t, org, source) == Some(Cell(plan, Some(WithGrace(At(end)))))
  {
    RunRefinesCell(prices, s, org, source, events);
    CheckoutAndInvoiceConverge(prices, CellOf(s, org, source), org, source, checkout, invoice, plan, events);
  }

  // ------------------------------------------------------------ redelivery

  lemma HeldAgain(s: Store, org: nat, subscription: string, hold: Hold)
    requires Unique(s.grants)
    ensures var t := Held(s, org, subscription, hold).0;
            Held(t, org, subscription, hold).0 == t
  {
    var held := ProviderGrant(s.grants, org, subscription);
    var t := Held(s, org, subscription, hold).0;
    HeldUnique(s, org, subscription, hold);
    if held.Some? {
      var i := held.value;
      if hold.plan.Some? && hold.plan.value != s.grants[i].plan {
        var revoked := Revoked(s, i, hold.occurredAt);
        if Taken(revoked.grants, subscription) {
          var k :| 0 <= k < |s.grants| && Live(revoked.grants[k], subscription);
          assert Live(s.grants[k], subscription) && Live(s.grants[i], subscription);
        }
        ProviderGrantIs(t.grants, org, subscription, |s.grants|);
        assert t.grants[|s.grants| := t.grants[|s.grants|]] == t.grants;
      } else {
        ProviderGrantIs(t.grants, org, subscription, i);
        assert t.grants[i := t.grants[i]] == t.grants;
      }
    } else if hold.create && hold.plan.Some? && !Taken(s.grants, subscription) {
      ProviderGrantIs(t.grants, org, subscription, |s.grants|);
      assert t.grants[|s.grants| := t.grants[|s.grants|]] == t.grants;
    }
  }

  lemma RescheduledAgain(s: Store, org: nat, subscription: string, expiresAt: int)
    requires Unique(s.grants)
    ensures var t := Rescheduled(s, org, subscription, expiresAt);
            Rescheduled(t, org, subscription, expiresAt) == t
  {
    var held := ProviderGrant(s.grants, org, subscription);
    var t := Rescheduled(s, org, subscription, expiresAt);
    if held.Some? {
      assert Unique(t.grants);
      ProviderGrantIs(t.grants, org, subscription, held.value);
      assert t.grants[held.value := t.grants[held.value]] == t.grants;
    }
  }

  /** A line that changes nothing now changes nothing after another line. */
  lemma SettledStays(prices: PriceMap, s: Store, p: Purchase, line: (string, int), other: (string, int))
    requires LineBought(prices, s, p, line) == (s, Ok(()))
    ensures var t := LineBought(prices, s, p, other).0;
            LineBought(prices, t, p, line) == (t, Ok(()))
  {
    var t := LineBought(prices, s, p, other).0;
    if Credited(s.credits, p.org, p.session) {
      var i :| 0 <= i < |s.credits| && s.credits[i].org == p.org && s.credits[i].session == p.session;
      assert t.credits[i] == s.credits[i];
    }
    if p.subscription.Some? {
      var held := ProviderGrant(s.grants, p.org, p.subscription.value);
      if held.Some? {
        assert t.grants[held.value] in t.grants;
      }
    }
  }

  lemma {:induction false} LineStaysSettled(
    prices: PriceMap, s: Store, p: Purchase, line: (string, int), lines: seq<(string, int)>)
    requires LineBought(prices, s, p, line) == (s, Ok(()))
    ensures var t := LinesBought(prices, s, p, lines).0;
            LineBought(prices, t, p, line) == (t, Ok(()))
    decreases |lines|
  {
    if lines != [] {
      SettledStays(prices, s, p, line, lines[0]);
      var (t, done) := LineBought(prices, s, p, lines[0]);
      if done.Ok? { LineStaysSettled(prices, t, p, line, lines[1..]); }
    }
  }

  lemma LineAgain(prices: PriceMap, s: Store, p: Purchase, line: (string, int))
    ensures var (t, done) := LineBought(prices, s, p, line);
            LineBought(prices, t, p, line) == (t, done) && (done.Err? ==> t == s)
  {
    var (t, done) := LineBought(prices, s, p, line);
    if t.credits != s.credits {
      assert t.credits[|s.credits|].org == p.org && t.credits[|s.credits|].session == p.session;
    }
    if t.grants != s.grants {
      assert Provides(t.grants[|s.grants|], p.org, p.subscription.value);
    }
  }

  lemma {:induction false} LinesAgain(prices: PriceMap, s: Store, p: Purchase, lines: seq<(string, int)>)
    ensures var (t, done) := LinesBought(prices, s, p, lines);
            LinesBought(prices, t, p, lines) == (t, done)
    decreases |lines|
  {
    if lines != [] {
      var (u, first) := LineBought(prices, s, p, lines[0]);
      LineAgain(prices, s, p, lines[0]);
      if first.Ok? {
        LineStaysSettled(prices, u, p, lines[0], lines[1..]);
        LinesAgain(prices, u, p, lines[1..]);
      }
    }
  }

  /** Delivering an event twice in a row leaves the very store that delivering it once does. */
  lemma RedeliveryIsNothing(prices: PriceMap, s: Store, e: Delivery)
    requires Unique(s.grants)
    ensures var t := Delivered(prices, s, e).0;
            Delivered(prices, t, e).0 == t
  {
    match e
    case CheckoutCompleted(org, unpaid, session, lines, subscription, created) =>
      if !unpaid && org.Some? { LinesAgain(prices, s, PurchaseOf(e), lines); }
    case InvoicePaid(org, subscription, price, periods, header, created) =>
      if org.Some? && subscription.Some? { HeldAgain(s, org.value, subscription.value, PaidHold(prices, e)); }
    case InvoiceFailed(org, subscription, created) =>
      if org.Some? && subscription.Some? {
        RescheduledAgain(s, org.value, subscription.value, WithGrace(At(created)));
      }
    case SubscriptionChanged(org, subscription, status, deleted, periodEnd, endedAt, price, created) =>
      if org.Some? && subscription.Some? && status.Some? {
        HeldAgain(s, org.value, subscription.value, ChangedHold(prices, e));
      }
  }

  /**
   A plan switch revokes the old grant and writes the new one separately. A
   delivery cut off between the two is put right by its redelivery exactly
   when the event may create a grant.
   */
  lemma SwitchCutShortHealsIff(s: Store, org: nat, source: string, hold: Hold)
    requires Unique(s.grants) && Own(s.grants, org, source)
    requires CellOf(s, org, source).Some? && hold.plan.Some? && hold.plan.value != CellOf(s, org, source).value.plan
    ensures var cut := Revoked(s, ProviderGrant(s.grants, org, source).value, hold.occurredAt);
            (CellOf(Held(cut, org, source, hold).0, org, source) == CellOf(Held(s, org, source, hold).0, org, source))
            <==> hold.create
  {
    var i := ProviderGrant(s.grants, org, source).value;
    UpdateSees(s, i, s.grants[i].(revokedAt := Some(hold.occurredAt)), org, source);
    HeldSees(Revoked(s, i, hold.occurredAt), org, source, org, source, hold);
    HeldSees(s, org, source, org, source, hold);
  }

  /** A deletion that names another price, cut off there, is never put right. */
  lemma CutDeletionIsLost(prices: PriceMap, s: Store, e: Delivery)
    requires prices == map["pro" := ProMonthly] && s == Store([StripeGrant(1, "sub", Starter, 0, None)], [])
    requires e == SubscriptionChanged(Some(1), Some("sub"), Some("canceled"), true, Some(100), None, Some("pro"), 50)
    ensures CellOf(Delivered(prices, s, e).0, 1, "sub") == Some(Cell(Subscriber, Some(At(100))))
    ensures CellOf(Delivered(prices, Revoked(s, 0, At(50)), e).0, 1, "sub") == None
  {
    assert Provides(s.grants[0], 1, "sub") && ProviderGrant(s.grants, 1, "sub") == Some(0);
    var hold := ChangedHold(prices, e);
    assert hold == Hold(Some(Subscriber), Some(At(100)), At(50), false);
    UpdateSees(s, 0, s.grants[0].(revokedAt := Some(At(50))), 1, "sub");
    HeldSees(Revoked(s, 0, At(50)), 1, "sub", 1, "sub", hold);
    HeldSees(s, 1, "sub", 1, "sub", hold);
  }

  // ------------------------------------------------------------ moves bought and moves credited

  /** The pack moves an organisation has been credited. */
  function Balance(credits: seq<Credit>, org: nat): int {
    if credits == [] then 0
    else
      Balance(credits[..|credits| - 1], org)
      + (if credits[|credits| - 1].org == org then credits[|credits| - 1].delta else 0)
  }

  /** What the first pack line among these buys. */
  function FirstPack(prices: PriceMap, lines: seq<(string, int)>): Option<int> {
    if lines == [] then None
    else if lines[0].0 in prices && PackSize(prices[lines[0].0]).Some? then
      Some(PackMoves(lines[0].1, PackSize(prices[lines[0].0]).value))
    else FirstPack(prices, lines[1..])
  }

  /** What every pack line among these would buy. */
  function AllPacks(prices: PriceMap, lines: seq<(string, int)>): int {
    if lines == [] then 0
    else
      (if lines[0].0 in prices && PackSize(prices[lines[0].0]).Some? then
         PackMoves(lines[0].1, PackSize(prices[lines[0].0]).value) else 0)
      + AllPacks(prices, lines[1..])
  }

  function PackLines(prices: PriceMap, lines: seq<(string, int)>): nat {
    if lines == [] then 0
    else
      (if lines[0].0 in prices && PackSize(prices[lines[0].0]).Some? then 1 else 0) + PackLines(prices, lines[1..])
  }

  lemma {:induction false} PacksArePositive(prices: PriceMap, lines: seq<(string, int)>)
    ensures AllPacks(prices, lines) >= PackLines(prices, lines)
  {
    if lines != [] {
      PacksArePositive(prices, lines[1..]);
      if lines[0].0 in prices && PackSize(prices[lines[0].0]).Some? {
        var size := PackSize(prices[lines[0].0]).value;
        var q := if lines[0].1 > 1 then lines[0].1 else 1;
        assert q * size >= size;
      }
    }
  }

  lemma {:induction false} PacksAreNothingIff(prices: PriceMap, lines: seq<(string, int)>)
    ensures AllPacks(prices, lines) == 0 <==> PackLines(prices, lines) == 0
  {
    PacksArePositive(prices, lines);
    if lines != [] {
      PacksAreNothingIff(prices, lines[1..]);
      PacksArePositive(prices, lines[1..]);
    }
  }

  lemma {:induction false} OnePackIsAll(prices: PriceMap, lines: seq<(string, int)>)
    ensures FirstPack(prices, lines).Some? <==> PackLines(prices, lines) >= 1
    ensures (AllPacks(prices, lines) == if FirstPack(prices, lines).Some? then FirstPack(prices, lines).value else 0)
            <==> PackLines(prices, lines) <= 1
  {
    if lines != [] {
      OnePackIsAll(prices, lines[1..]);
      PacksArePositive(prices, lines[1..]);
      PacksAreNothingIff(prices, lines[1..]);
    }
  }

  /** Whether a plan line stands before every pack line. */
  predicate PlanFirst(prices: PriceMap, lines: seq<(string, int)>) {
    lines != []
    && if lines[0].0 !in prices then PlanFirst(prices, lines[1..]) else PackSize(prices[lines[0].0]).None?
  }

  lemma {:induction false} CreditedStays(prices: PriceMap, s: Store, p: Purchase, lines: seq<(string, int)>)
    requires Credited(s.credits, p.org, p.session)
    ensures LinesBought(prices, s, p, lines).0.credits == s.credits
    decreases |lines|
  {
    if lines != [] {
      var (t, done) := LineBought(prices, s, p, lines[0]);
      if done.Ok? { CreditedStays(prices, t, p, lines[1..]); }
    }
  }

  lemma CreditedAfter(s: Store, p: Purchase, moves: int)
    ensures Credited(PackCredited(s, p, moves).credits, p.org, p.session)
    ensures !Credited(s.credits, p.org, p.session) ==>
              Balance(PackCredited(s, p, moves).credits, p.org) == Balance(s.credits, p.org) + moves
  {
    if !Credited(s.credits, p.org, p.session) {
      var credits := PackCredited(s, p, moves).credits;
      assert credits[|s.credits|].org == p.org && credits[|s.credits|].session == p.session;
      assert credits[..|s.credits|] == s.credits;
    }
  }

  /** What one checkout's lines add to the ledger: its first pack, unless a plan line fails before it. */
  lemma {:induction false} LinesCredit(prices: PriceMap, s: Store, p: Purchase, lines: seq<(string, int)>)
    ensures var first := FirstPack(prices, lines);
            LinesBought(prices, s, p, lines).0.credits
            == if first.Some? && !(Refuses(s, p) && PlanFirst(prices, lines))
               then PackCredited(s, p, first.value).credits else s.credits
    decreases |lines|
  {
    if lines != [] {
      var (t, done) := LineBought(prices, s, p, lines[0]);
      if lines[0].0 in prices && PackSize(prices[lines[0].0]).Some? {
        CreditedAfter(s, p, PackMoves(lines[0].1, PackSize(prices[lines[0].0]).value));
        CreditedStays(prices, t, p, lines[1..]);
      } else if done.Ok? {
        LinesCredit(prices, t, p, lines[1..]);
        if t.grants != s.grants {
          assert Provides(t.grants[|s.grants|], p.org, p.subscription.value);
          assert !Refuses(t, p);
        }
      }
    }
  }

  /**
   A session not yet credited is credited every pack it paid for exactly when
   it holds no pack line, or holds one and no plan line fails before it.
   */
  lemma CreditIsWholeIff(prices: PriceMap, s: Store, p: Purchase, lines: seq<(string, int)>)
    requires !Credited(s.credits, p.org, p.session)
    ensures (Balance(LinesBought(prices, s, p, lines).0.credits, p.org)
             == Balance(s.credits, p.org) + AllPacks(prices, lines))
            <==> || PackLines(prices, lines) == 0
                 || (PackLines(prices, lines) == 1 && !(Refuses(s, p) && PlanFirst(prices, lines)))
  {
    hide LinesBought, PackCredited, Refuses, PlanFirst, Balance, AllPacks, FirstPack, PackLines;
    LinesCredit(prices, s, p, lines);
    OnePackIsAll(prices, lines);
    PacksArePositive(prices, lines);
    PacksAreNothingIff(prices, lines);
    var first := FirstPack(prices, lines);
    if first.Some? { CreditedAfter(s, p, first.value); }
  }

  /** A session of two packs is credited for the first of them only. */
  lemma SecondPackIsLost(prices: PriceMap, s: Store, p: Purchase)
    requires prices == map["p" := Pack20, "q" := Pack50] && !Credited(s.credits, p.org, p.session)
    ensures var lines := [("p", 1), ("q", 1)];
            && Balance(LinesBought(prices, s, p, lines).0.credits, p.org) == Balance(s.credits, p.org) + 20
            && AllPacks(prices, lines) == 70
  {
    hide Balance, LinesBought, PackCredited, Credited, Refuses;
    var lines: seq<(string, int)> := [("p", 1), ("q", 1)];
    var second := lines[1..];
    assert second == [("q", 1)] && |second[1..]| == 0;
    assert AllPacks(prices, second) == 50 + AllPacks(prices, second[1..]);
    assert PackMoves(1, 20) == 20 && PackMoves(1, 50) == 50;
    assert FirstPack(prices, lines) == Some(20);
    LinesCredit(prices, s, p, lines);
    CreditedAfter(s, p, 20);
  }

  /** And one whose plan comes first, and cannot be started, for none. */
  lemma PackBehindPlanIsLost(prices: PriceMap, s: Store, p: Purchase)
    requires prices == map["p" := Pack20, "s" := StarterMonthly] && p.subscription.None?
    ensures var lines := [("s", 1), ("p", 1)];
            LinesBought(prices, s, p, lines) == (s, Err(Unreadable)) && AllPacks(prices, lines) == 20
  {
    hide Credited, ProviderGrant, Taken;
    var lines: seq<(string, int)> := [("s", 1), ("p", 1)];
    var second := lines[1..];
    assert second == [("p", 1)] && |second[1..]| == 0;
    assert PackMoves(1, 20) == 20;
    assert AllPacks(prices, second) == 20 + AllPacks(prices, second[1..]);
    assert LineBought(prices, s, p, lines[0]) == (s, Err(Unreadable));
  }

  /** And so for one whose subscription another organisation's live row already names. */
  lemma PackBehindTakenPlanIsLost(prices: PriceMap, s: Store, p: Purchase)
    requires prices == map["p" := Pack20, "s" := StarterMonthly]
    requires s == Store([StripeGrant(2, "sub", Starter, 0, None)], []) && p.org == 1 && p.subscription == Some("sub")
    ensures var lines := [("s", 1), ("p", 1)];
            LinesBought(prices, s, p, lines) == (s, Err(SourceTaken)) && AllPacks(prices, lines) == 20
  {
    hide Credited;
    var lines: seq<(string, int)> := [("s", 1), ("p", 1)];
    var second := lines[1..];
    assert second == [("p", 1)] && |second[1..]| == 0;
    assert PackMoves(1, 20) == 20;
    assert AllPacks(prices, second) == 20 + AllPacks(prices, second[1..]);
    assert s.grants[..0] == [] && !Provides(s.grants[0], 1, "sub");
    assert ProviderGrant(s.grants, 1, "sub") == None;
    assert s.grants[0].source == Some("sub") && Taken(s.grants, "sub");
    assert LineBought(prices, s, p, lines[0]) == (s, Err(SourceTaken));
  }

  /** A session sells packs or a plan, never both: the two are opened in different checkout modes. */
  ghost predicate OneMode(prices: PriceMap, lines: seq<(string, int)>) {
    || (forall l <- lines :: l.0 in prices ==> PackSize(prices[l.0]).Some?)
    || (forall l <- lines :: l.0 in prices ==> PackSize(prices[l.0]).None?)
  }

  /** Every delivery of a session carries that session's own lines. */
  ghost predicate Consistent(prices: PriceMap, sold: map<string, seq<(string, int)>>, events: seq<Event>) {
    forall e <- events :: e.CheckoutCompleted? ==>
      e.session in sold && sold[e.session] == e.lines && OneMode(prices, e.lines)
  }

  ghost function Value(prices: PriceMap, sold: map<string, seq<(string, int)>>, session: string): int {
    if session in sold then
      var first := FirstPack(prices, sold[session]);
      if first.Some? then first.value else 0
    else 0
  }

  ghost function PaidSessions(prices: PriceMap, events: seq<Event>, org: nat): set<string> {
    set e <- events | e.CheckoutCompleted? && !e.unpaid && e.org == Some(org) && FirstPack(prices, e.lines).Some? ::
      e.session
  }

  ghost function CreditedSessions(credits: seq<Credit>, org: nat): set<string> {
    set c <- credits | c.org == org :: c.session
  }

  ghost function Total(prices: PriceMap, sold: map<string, seq<(string, int)>>, sessions: set<string>): int {
    if sessions == {} then 0
    else
      var session :| session in sessions;
      Value(prices, sold, session) + Total(prices, sold, sessions - {session})
  }

  lemma {:induction false} TotalAdds(
    prices: PriceMap, sold: map<string, seq<(string, int)>>, sessions: set<string>, x: string)
    requires x in sessions
    ensures Total(prices, sold, sessions) == Value(prices, sold, x) + Total(prices, sold, sessions - {x})
    decreases |sessions|
  {
    var session :| session in sessions
                   && Total(prices, sold, sessions)
                      == Value(prices, sold, session) + Total(prices, sold, sessions - {session});
    if session != x {
      TotalAdds(prices, sold, sessions - {session}, x);
      TotalAdds(prices, sold, sessions - {x}, session);
      assert sessions - {session} - {x} == sessions - {x} - {session};
    }
  }

  /** One row a session, each of what its session's pack buys. */
  ghost predicate GoodCredits(prices: PriceMap, sold: map<string, seq<(string, int)>>, credits: seq<Credit>) {
    && (forall i, j | 0 <= i < j < |credits| ::
          !(credits[i].org == credits[j].org && credits[i].session == credits[j].session))
    && (forall c <- credits :: c.delta == Value(prices, sold, c.session))
  }

  lemma {:induction false} BalanceIsTotal(
    prices: PriceMap, sold: map<string, seq<(string, int)>>, credits: seq<Credit>, org: nat)
    requires GoodCredits(prices, sold, credits)
    ensures Balance(credits, org) == Total(prices, sold, CreditedSessions(credits, org))
  {
    if credits == [] {
      assert CreditedSessions(credits, org) == {};
    } else {
      var front := credits[..|credits| - 1];
      var c := credits[|credits| - 1];
      assert credits == front + [c];
      BalanceIsTotal(prices, sold, front, org);
      var sessions := CreditedSessions(credits, org);
      if c.org == org {
        assert c in credits;
        assert c.session !in CreditedSessions(front, org);
        assert sessions - {c.session} == CreditedSessions(front, org);
        TotalAdds(prices, sold, sessions, c.session);
      } else {
        assert sessions == CreditedSessions(front, org);
      }
    }
  }

  lemma {:induction false} NoPackAmong(prices: PriceMap, lines: seq<(string, int)>)
    requires forall l <- lines :: l.0 in prices ==> PackSize(prices[l.0]).None?
    ensures FirstPack(prices, lines).None?
  {
    if lines != [] {
      assert lines[0] in lines;
      NoPackAmong(prices, lines[1..]);
    }
  }

  lemma {:induction false} OneModeHasOneKind(prices: PriceMap, lines: seq<(string, int)>)
    requires OneMode(prices, lines)
    ensures FirstPack(prices, lines).None? || !PlanFirst(prices, lines)
  {
    if lines != [] {
      assert lines[0] in lines;
      if lines[0].0 !in prices {
        OneModeHasOneKind(prices, lines[1..]);
      } else if PackSize(prices[lines[0].0]).None? {
        NoPackAmong(prices, lines);
      }
    }
  }

  lemma CreditOnce(prices: PriceMap, sold: map<string, seq<(string, int)>>, s: Store, p: Purchase, org: nat)
    requires GoodCredits(prices, sold, s.credits)
    ensures var t := PackCredited(s, p, Value(prices, sold, p.session));
            && GoodCredits(prices, sold, t.credits)
            && CreditedSessions(t.credits, org)
               == CreditedSessions(s.credits, org) + (if p.org == org then {p.session} else {})
  {
    var t := PackCredited(s, p, Value(prices, sold, p.session));
    if Credited(s.credits, p.org, p.session) {
      var i :| 0 <= i < |s.credits| && s.credits[i].org == p.org && s.credits[i].session == p.session;
      assert s.credits[i] in s.credits;
    } else {
      var c := t.credits[|s.credits|];
      assert t.credits == s.credits + [c];
      assert c in t.credits;
    }
  }

  lemma OthersCreditNothing(prices: PriceMap, s: Store, e: Event)
    requires !(e.CheckoutCompleted? && !e.unpaid && e.org.Some?)
    ensures Happened(prices, s, e).credits == s.credits
  {
  }

  /** Whatever happens keeps the ledger good and credits exactly the session it paid for, if any. */
  lemma DeliveryCredits(
    prices: PriceMap, sold: map<string, seq<(string, int)>>, s: Store, e: Event, org: nat)
    requires GoodCredits(prices, sold, s.credits) && Consistent(prices, sold, [e])
    ensures var t := Happened(prices, s, e);
            && GoodCredits(prices, sold, t.credits)
            && CreditedSessions(t.credits, org) == CreditedSessions(s.credits, org) + PaidSessions(prices, [e], org)
  {
    hide PackCredited, GoodCredits, CreditedSessions, FirstPack, LinesBought, Held, Rescheduled, PlanFirst, Refuses;
    assert e in [e];
    if e.CheckoutCompleted? && !e.unpaid && e.org.Some? {
      var p := PurchaseOf(e);
      LinesCredit(prices, s, p, e.lines);
      OneModeHasOneKind(prices, e.lines);
      if FirstPack(prices, e.lines).Some? { CreditOnce(prices, sold, s, p, org); }
    } else {
      OthersCreditNothing(prices, s, e);
    }
  }

  /**
   However the checkouts of its sessions repeat and interleave, an
   organisation's pack moves are the sum over the distinct sessions it paid
   for of what each one bought.
   */
  lemma {:induction false} MovesConserved(
    prices: PriceMap, sold: map<string, seq<(string, int)>>, s: Store, events: seq<Event>, org: nat)
    requires GoodCredits(prices, sold, s.credits) && Consistent(prices, sold, events)
    ensures Balance(Run(prices, s, events).credits, org)
         == Total(prices, sold, CreditedSessions(s.credits, org) + PaidSessions(prices, events, org))
    decreases |events|
  {
    if events == [] {
      BalanceIsTotal(prices, sold, s.credits, org);
      assert CreditedSessions(s.credits, org) + PaidSessions(prices, events, org) == CreditedSessions(s.credits, org);
    } else {
      var e := events[0];
      assert events == [e] + events[1..];
      assert e in events;
      DeliveryCredits(prices, sold, s, e, org);
      var t := Happened(prices, s, e);
      MovesConserved(prices, sold, t, events[1..], org);
      assert CreditedSessions(t.credits, org) + PaidSessions(prices, events[1..], org)
          == CreditedSessions(s.credits, org) + PaidSessions(prices, events, org);
    }
  }

  /** Two runs of the same deliveries, in different orders and numbers, credit the same moves. */
  lemma MovesIgnoreOrder(
    prices: PriceMap, sold: map<string, seq<(string, int)>>, a: seq<Event>, b: seq<Event>, org: nat)
    requires Consistent(prices, sold, a) && Consistent(prices, sold, b)
    requires forall e :: e in a <==> e in b
    ensures Balance(Run(prices, Store([], []), a).credits, org) == Balance(Run(prices, Store([], []), b).credits, org)
  {
    MovesConserved(prices, sold, Store([], []), a, org);
    MovesConserved(prices, sold, Store([], []), b, org);
    assert PaidSessions(prices, a, org) == PaidSessions(prices, b, org);
  }
}
