/**
 * Billing events (services/billing.service.ts, services/entitlement.service.ts): webhooks
 * may arrive in any order, more than once and concurrently, and the stored subscriptions,
 * the account tier and the plan of every owned installation must not depend on it.
 */
module Billing {
  import opened Basics

  type SubId = nat
  type UserId = nat
  type InstallationId = nat

  datatype Tier = FREE | INDIE | TEAM

  /** status is already lower-cased; lastEventAt is absent on rows older than the column. */
  datatype Subscription = Subscription(user: UserId, plan: Tier, status: string, lastEventAt: Option<int>)

  datatype Installation = Installation(owner: UserId, plan: Tier)

  datatype Db = Db(subs: map<SubId, Subscription>, installations: map<InstallationId, Installation>)

  /** A provider event; product is the tier of the product bought, if it is one of ours. */
  datatype Event = Event(sub: SubId, status: string, product: Option<Tier>, account: Option<UserId>, at: int)

  /** One webhook delivery; known: the account its lookup before the transaction found stored. */
  datatype Delivery = Delivery(event: Event, known: Option<UserId>)

  const CANCELED := "canceled"

  predicate Entitling(status: string) {
    status == "active" || status == "past_due" || status == "trialing"
  }

  predicate Revokes(e: Event) {
    e.status == CANCELED
  }

  function TierOf(e: Event): Tier {
    if Entitling(e.status) then (if e.product.Some? then e.product.value else FREE) else FREE
  }

  /** syncCancellation delivers the event as a revocation. */
  function Cancellation(e: Event): Event {
    e.(status := CANCELED)
  }

  // ---- what an event does -----------------------------------------------------------------

  function Lookup(db: Db, s: SubId): Option<UserId> {
    if s in db.subs then Some(db.subs[s].user) else None
  }

  /** The account an event is booked on: the stored one, or else the one it names. */
  function AccountFor(d: Delivery): Option<UserId> {
    if d.known.Some? then d.known else d.event.account
  }

  predicate Outdated(stored: Subscription, e: Event) {
    && stored.lastEventAt.Some? && stored.lastEventAt.value >= e.at
    && !(stored.lastEventAt.value == e.at && Revokes(e) && Entitling(stored.status))
  }

  predicate Applies(db: Db, d: Delivery) {
    AccountFor(d).Some? && !(d.event.sub in db.subs && Outdated(db.subs[d.event.sub], d.event))
  }

  predicate HoldsTier(subs: map<SubId, Subscription>, user: UserId, tier: Tier) {
    exists s :: s in subs && subs[s].user == user && Entitling(subs[s].status) && subs[s].plan == tier
  }

  /** The best paid plan among the account's entitling subscriptions. */
  function AccountTier(subs: map<SubId, Subscription>, user: UserId): Tier {
    if HoldsTier(subs, user, TEAM) then TEAM else if HoldsTier(subs, user, INDIE) then INDIE else FREE
  }

  /** Some subscription of the account is paid up and of this tier. */
  ghost predicate Pays(subs: map<SubId, Subscription>, user: UserId, tier: Tier) {
    exists s :: s in subs && subs[s].user == user && subs[s].plan == tier && PaidUp(subs[s])
  }

  predicate PaidUp(row: Subscription) {
    row.status == "active" || row.status == "past_due" || row.status == "trialing"
  }

  /** TEAM if any subscription pays for it, else INDIE if any does, else FREE. */
  ghost predicate Deserves(subs: map<SubId, Subscription>, user: UserId, tier: Tier) {
    && (tier == TEAM <==> Pays(subs, user, TEAM))
    && (tier == INDIE <==> Pays(subs, user, INDIE) && !Pays(subs, user, TEAM))
    && (tier == FREE <==> !Pays(subs, user, INDIE) && !Pays(subs, user, TEAM))
  }

  /** The best paid plan is what the account deserves. */
  lemma BestPlan(subs: map<SubId, Subscription>, user: UserId)
    ensures Deserves(subs, user, AccountTier(subs, user))
  {
    forall tier
      ensures Pays(subs, user, tier) <==> HoldsTier(subs, user, tier)
    {
      if s :| s in subs && subs[s].user == user && subs[s].plan == tier && PaidUp(subs[s]) {
        assert Entitling(subs[s].status);
      }
      if s :| s in subs && subs[s].user == user && Entitling(subs[s].status) && subs[s].plan == tier {
        assert PaidUp(subs[s]);
      }
    }
  }

  function Mirrored(installations: map<InstallationId, Installation>, user: UserId, tier: Tier):
      map<InstallationId, Installation> {
    map i | i in installations ::
      if installations[i].owner == user then installations[i].(plan := tier) else installations[i]
  }

  function Receive(db: Db, d: Delivery): Db {
    if !Applies(db, d) then db
    else
      var e := d.event;
      var user := AccountFor(d).value;
      var subs := db.subs[e.sub := Subscription(user, TierOf(e), e.status, Some(e.at))];
      Db(subs, Mirrored(db.installations, user, AccountTier(subs, user)))
  }

  function Process(db: Db, run: seq<Delivery>): Db {
    if run == [] then db else Receive(Process(db, run[..|run| - 1]), run[|run| - 1])
  }

  lemma ProcessMore(db: Db, run: seq<Delivery>, d: Delivery)
    ensures Process(db, run + [d]) == Receive(Process(db, run), d)
  {
    assert (run + [d])[..|run|] == run;
  }

  /** Every lookup saw the table as it was at that moment or earlier. */
  ghost predicate Plausible(db: Db, run: seq<Delivery>) {
    forall k :: 0 <= k < |run| ==> LookedUp(db, run, k)
  }

  ghost predicate LookedUp(db: Db, run: seq<Delivery>, k: nat)
    requires k < |run|
  {
    exists j :: 0 <= j <= k && run[k].known == Lookup(Process(db, run[..j]), run[k].event.sub)
  }

  function EventsOf(run: seq<Delivery>): set<Event> {
    set d | d in run :: d.event
  }

  // ---- the code -----------------------------------------------------------------------------

  class BillingStore {
    var subs: map<SubId, Subscription>
    var installations: map<InstallationId, Installation>

    ghost function View(): Db
      reads this
    {
      Db(subs, installations)
    }

    constructor (subs: map<SubId, Subscription>, installations: map<InstallationId, Installation>)
      ensures View() == Db(subs, installations)
    {
      this.subs, this.installations := subs, installations;
    }

    /** Look the subscription up, then apply the event under the account lock; others may run in between. */
    method SyncSubscription(e: Event, between: seq<Delivery>) returns (user: Option<UserId>, tier: Tier)
      modifies this
      ensures View() == Process(old(View()), between + [Delivery(e, Lookup(old(View()), e.sub))])
      ensures user == AccountFor(Delivery(e, Lookup(old(View()), e.sub)))
      ensures user.None? ==> tier == FREE && View() == Process(old(View()), between)
      ensures user.Some? ==> e.sub in subs && tier == subs[e.sub].plan
    {
      var known := if e.sub in subs then Some(subs[e.sub].user) else None;
      ghost var before := View();
      for k := 0 to |between|
        invariant View() == Process(before, between[..k])
      {
        ProcessMore(before, between[..k], between[k]);
        assert between[..k + 1] == between[..k] + [between[k]];
        var _ := Transact(between[k]);
      }
      assert between[..|between|] == between;
      ProcessMore(before, between, Delivery(e, known));
      user := if known.Some? then known else e.account;
      tier := Transact(Delivery(e, known));
    }

    method SyncCancellation(e: Event, between: seq<Delivery>) returns (user: Option<UserId>)
      modifies this
      ensures View() == Process(old(View()), between + [Delivery(Cancellation(e), Lookup(old(View()), e.sub))])
      ensures user == AccountFor(Delivery(e, Lookup(old(View()), e.sub)))
    {
      var tier;
      user, tier := SyncSubscription(e.(status := CANCELED), between);
    }

    /** The transaction: skip what is outdated, otherwise upsert and mirror the account's tier. */
    method Transact(d: Delivery) returns (tier: Tier)
      modifies this
      ensures View() == Receive(old(View()), d)
      ensures AccountFor(d).None? ==> tier == FREE
      ensures AccountFor(d).Some? ==> d.event.sub in subs && tier == subs[d.event.sub].plan
    {
      var user := if d.known.Some? then d.known else d.event.account;
      if user.None? {
        return FREE;
      }
      var e := d.event;
      if e.sub in subs {
        var existing := subs[e.sub];
        var sameTimeRevocation :=
          existing.lastEventAt == Some(e.at) && e.status == CANCELED && Entitling(existing.status);
        if existing.lastEventAt.Some? && existing.lastEventAt.value >= e.at && !sameTimeRevocation {
          return existing.plan;
        }
      }
      tier := TierOf(e);
      subs := subs[e.sub := Subscription(user.value, tier, e.status, Some(e.at))];
      SyncEntitlements(user.value);
    }

    /** Mirror the best active tier onto every installation of the account. */
    method SyncEntitlements(user: UserId)
      modifies this`installations
      ensures installations == Mirrored(old(installations), user, AccountTier(subs, user))
      ensures installations.Keys == old(installations).Keys
      ensures forall i :: i in installations ==> installations[i].owner == old(installations)[i].owner
      ensures forall i :: i in installations && installations[i].owner != user ==> installations[i] == old(installations)[i]
      ensures forall i :: i in installations && installations[i].owner == user ==> Deserves(subs, user, installations[i].plan)
    {
      var tier := AccountTier(subs, user);
      var todo := installations.Keys;
      ghost var before := installations;
      while todo != {}
        invariant todo <= installations.Keys && installations.Keys == before.Keys
        invariant forall i :: i in installations ==>
          installations[i] == if i !in todo && before[i].owner == user then before[i].(plan := tier) else before[i]
        decreases todo
      {
        var i :| i in todo;
        todo := todo - {i};
        if installations[i].owner == user {
          installations := installations[i := installations[i].(plan := tier)];
        }
      }
      assert installations == Mirrored(before, user, tier);
      BestPlan(subs, user);
    }
  }
}
