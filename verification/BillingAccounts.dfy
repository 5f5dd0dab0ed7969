/**
 * From subscriptions to accounts. The account of a subscription is independent of the order
 * exactly when no two events claim a new subscription for different accounts; the tier of
 * every account and the plan of every installation then converge too.
 */
module BillingAccounts {
  import opened Basics
  import opened Billing
  import opened BillingTheorems

  /** A subscription not stored yet is claimed for one account only; a stored one keeps its account. */
  ghost predicate OneAccountOn(db: Db, events: set<Event>, s: SubId) {
    s in db.subs || forall a, b :: a in Named(events, s) && b in Named(events, s) ==> a.account == b.account
  }

  ghost predicate OneAccount(db: Db, events: set<Event>) {
    forall s :: OneAccountOn(db, events, s)
  }

  ghost predicate OwnedBy(db: Db, events: set<Event>, s: SubId, user: UserId) {
    if s in db.subs then db.subs[s].user == user
    else exists e :: e in Named(events, s) && e.account == Some(user)
  }

  ghost predicate Owned(db: Db, events: set<Event>, now: Db) {
    forall s :: s in now.subs ==> OwnedBy(db, events, s, now.subs[s].user)
  }

  lemma OneOwner(db: Db, events: set<Event>, s: SubId, u: UserId, v: UserId)
    requires OneAccount(db, events) && OwnedBy(db, events, s, u) && OwnedBy(db, events, s, v)
    ensures u == v
  {
    assert OneAccountOn(db, events, s);
  }

  lemma {:induction false} Owners(db: Db, events: set<Event>, run: seq<Delivery>)
    requires Plausible(db, run) && EventsOf(run) <= events
    ensures Owned(db, events, Process(db, run))
    decreases |run|
  {
    if run != [] {
      var n := |run| - 1;
      var d := run[n];
      EarlierEvents(db, events, run, n);
      Owners(db, events, run[..n]);
      if Booked(d) {
        var s := d.event.sub;
        assert LookedUp(db, run, n);
        var j :| 0 <= j <= n && d.known == Lookup(Process(db, run[..j]), s);
        EarlierEvents(db, events, run, j);
        Owners(db, events, run[..j]);
        assert d.event in EventsOf(run);
        if d.known.None? {
          StaysStored(db, run[..j], s);
          assert d.event in Named(events, s);
        }
        assert OwnedBy(db, events, s, AccountFor(d).value);
      }
    }
  }

  lemma EarlierEvents(db: Db, events: set<Event>, run: seq<Delivery>, n: nat)
    requires Plausible(db, run) && EventsOf(run) <= events && n <= |run|
    ensures Plausible(db, run[..n]) && EventsOf(run[..n]) <= events
  {
    PlausiblePrefix(db, run, n);
    forall e | e in EventsOf(run[..n])
      ensures e in EventsOf(run)
    {
    }
  }

  // ---- installations ------------------------------------------------------------------------

  /** Some subscription of the account is not as it was at the start. */
  ghost predicate Touched(db: Db, now: Db, user: UserId) {
    exists s :: s in now.subs && now.subs[s].user == user && Stored(db, s) != Stored(now, s)
  }

  /** An account's installations mirror its tier from the first event applied to it on. */
  ghost predicate Mirrors(db: Db, now: Db) {
    && now.installations.Keys == db.installations.Keys
    && forall i :: i in now.installations ==>
         now.installations[i].owner == db.installations[i].owner &&
         now.installations[i].plan ==
           if Touched(db, now, db.installations[i].owner) then AccountTier(now.subs, db.installations[i].owner)
           else db.installations[i].plan
  }

  lemma AppliedChanges(init: Option<Subscription>, live: set<Event>, now: Option<Subscription>, e: Event, user: UserId)
    requires RowOk(init) && Agrees(init, live, now) && (now.Some? ==> !Outdated(now.value, e))
    ensures init != Some(Subscription(user, TierOf(e), e.status, Some(e.at)))
  {
  }

  /** Writing one subscription of an account says nothing about the tier of another account. */
  lemma OtherTier(subs: map<SubId, Subscription>, s: SubId, row: Subscription, user: UserId)
    requires row.user != user && (s in subs ==> subs[s].user != user)
    ensures AccountTier(subs[s := row], user) == AccountTier(subs, user)
  {
    var after := subs[s := row];
    forall tier
      ensures HoldsTier(after, user, tier) == HoldsTier(subs, user, tier)
    {
      if HoldsTier(after, user, tier) {
        var x :| x in after && after[x].user == user && Entitling(after[x].status) && after[x].plan == tier;
        assert x in subs && subs[x] == after[x];
      }
      if HoldsTier(subs, user, tier) {
        var x :| x in subs && subs[x].user == user && Entitling(subs[x].status) && subs[x].plan == tier;
        assert x in after && after[x] == subs[x];
      }
    }
  }

  lemma OtherTouched(db: Db, before: Db, after: Db, s: SubId, user: UserId)
    requires s in after.subs && after.subs == before.subs[s := after.subs[s]]
    requires after.subs[s].user != user && (s in before.subs ==> before.subs[s].user != user)
    ensures Touched(db, after, user) == Touched(db, before, user)
  {
  }

  lemma MirrorStep(db: Db, before: Db, after: Db, s: SubId, user: UserId)
    requires Mirrors(db, before) && s in after.subs && after.subs[s].user == user
    requires after.subs == before.subs[s := after.subs[s]] && (s in before.subs ==> before.subs[s].user == user)
    requires after.installations == Mirrored(before.installations, user, AccountTier(after.subs, user))
    requires Stored(db, s) != Stored(after, s)
    ensures Mirrors(db, after)
  {
    forall i | i in after.installations
      ensures after.installations[i].owner == db.installations[i].owner
      ensures after.installations[i].plan ==
              if Touched(db, after, db.installations[i].owner) then AccountTier(after.subs, db.installations[i].owner)
              else db.installations[i].plan
    {
      var owner := db.installations[i].owner;
      if owner == user {
        assert Touched(db, after, user);
      } else {
        OtherTier(before.subs, s, after.subs[s], owner);
        OtherTouched(db, before, after, s, owner);
      }
    }
  }

  lemma {:induction false} RunMirrors(db: Db, events: set<Event>, run: seq<Delivery>)
    requires DbOk(db) && OneAccount(db, events) && Plausible(db, run) && EventsOf(run) <= events
    ensures Mirrors(db, Process(db, run))
    decreases |run|
  {
    if run != [] {
      var n := |run| - 1;
      var d := run[n];
      var s := d.event.sub;
      EarlierEvents(db, events, run, n);
      RunMirrors(db, events, run[..n]);
      var before, after := Process(db, run[..n]), Process(db, run);
      if Applies(before, d) {
        Owners(db, events, run[..n]);
        Owners(db, events, run);
        if s in before.subs {
          OneOwner(db, events, s, before.subs[s].user, after.subs[s].user);
        }
        RunAgrees(db, run[..n], s);
        AppliedChanges(Stored(db, s), LiveOn(run[..n], s), Stored(before, s), d.event, AccountFor(d).value);
        assert Stored(after, s) == Some(Subscription(AccountFor(d).value, TierOf(d.event), d.event.status, Some(d.event.at)));
        MirrorStep(db, before, after, s, AccountFor(d).value);
      }
    } else {
      assert forall u :: !Touched(db, db, u);
    }
  }

  /**
   * After any run an installation has the plan its account deserves by the stored
   * subscriptions, or the plan it had when none of them has changed.
   */
  lemma InstallationsFollow(db: Db, events: set<Event>, run: seq<Delivery>, i: InstallationId)
    requires DbOk(db) && OneAccount(db, events) && Plausible(db, run) && EventsOf(run) <= events
    requires i in Process(db, run).installations
    ensures i in db.installations
    ensures var now, owner := Process(db, run), db.installations[i].owner;
            && now.installations[i].owner == owner
            && (if exists s :: s in now.subs && now.subs[s].user == owner && Stored(db, s) != Stored(now, s)
                then Deserves(now.subs, owner, now.installations[i].plan)
                else now.installations[i].plan == db.installations[i].plan)
  {
    RunMirrors(db, events, run);
    assert i in db.installations.Keys;
    BestPlan(Process(db, run).subs, db.installations[i].owner);
  }

  // ---- convergence ------------------------------------------------------------------------------

  ghost predicate SameSubscriptions(db: Db, a: Db, b: Db) {
    forall s ::
      && SameOutcome(Stored(a, s), Stored(b, s))
      && (Stored(a, s).Some? ==> a.subs[s].user == b.subs[s].user)
      && (Stored(a, s) == Stored(db, s) <==> Stored(b, s) == Stored(db, s))
      && RowOk(Stored(a, s)) && RowOk(Stored(b, s))
  }

  /** A subscription ends unchanged in one order exactly when it does in the other. */
  lemma ChangedAlike(init: Option<Subscription>, live: set<Event>, a: Option<Subscription>, b: Option<Subscription>)
    requires Agrees(init, live, a) && Agrees(init, live, b) && SameOutcome(a, b)
    ensures a == init <==> b == init
  {
  }

  lemma SameEnd(db: Db, events: set<Event>, r1: seq<Delivery>, r2: seq<Delivery>, s: SubId)
    requires DbOk(db) && OneGrantPerInstant(events) && Decided(db, events, s) && OneAccount(db, events)
    requires Plausible(db, r1) && Plausible(db, r2) && EventsOf(r1) == EventsOf(r2) == events
    ensures var a, b := Process(db, r1), Process(db, r2);
            && SameOutcome(Stored(a, s), Stored(b, s))
            && (Stored(a, s).Some? ==> a.subs[s].user == b.subs[s].user)
            && (Stored(a, s) == Stored(db, s) <==> Stored(b, s) == Stored(db, s))
            && RowOk(Stored(a, s)) && RowOk(Stored(b, s))
  {
    SubscriptionConverges(db, events, r1, r2, s);
    Owners(db, events, r1);
    Owners(db, events, r2);
    RunAgrees(db, r1, s);
    RunAgrees(db, r2, s);
    var a, b := Process(db, r1), Process(db, r2);
    if s in a.subs {
      OneOwner(db, events, s, a.subs[s].user, b.subs[s].user);
    }
    if s in db.subs {
      StoredBooksAll(db, r1, s);
      StoredBooksAll(db, r2, s);
      ChangedAlike(Stored(db, s), On(events, s), Stored(a, s), Stored(b, s));
    }
  }

  lemma SameTiers(db: Db, a: Db, b: Db, user: UserId)
    requires SameSubscriptions(db, a, b)
    ensures AccountTier(a.subs, user) == AccountTier(b.subs, user)
    ensures Touched(db, a, user) == Touched(db, b, user)
  {
    forall tier: Tier | tier != FREE
      ensures HoldsTier(a.subs, user, tier) == HoldsTier(b.subs, user, tier)
    {
      forall s
        ensures s in a.subs <==> s in b.subs
        ensures s in a.subs ==> a.subs[s].user == b.subs[s].user && a.subs[s].plan == b.subs[s].plan
        ensures s in a.subs && a.subs[s].plan != FREE ==> Entitling(a.subs[s].status) && Entitling(b.subs[s].status)
      {
        assert SameOutcome(Stored(a, s), Stored(b, s)) && RowOk(Stored(a, s)) && RowOk(Stored(b, s));
      }
    }
    if Touched(db, a, user) {
      var s :| s in a.subs && a.subs[s].user == user && Stored(db, s) != Stored(a, s);
      assert SameOutcome(Stored(a, s), Stored(b, s));
    }
    if Touched(db, b, user) {
      var s :| s in b.subs && b.subs[s].user == user && Stored(db, s) != Stored(b, s);
      assert SameOutcome(Stored(a, s), Stored(b, s));
    }
  }

  /**
   * Any order, with any repetitions and any interleaving of the lookups, ends with the same
   * tier for every account and the same plan on every installation.
   */
  lemma AccountsConverge(db: Db, events: set<Event>, r1: seq<Delivery>, r2: seq<Delivery>)
    requires DbOk(db) && OneGrantPerInstant(events) && OneAccount(db, events) && forall s :: Decided(db, events, s)
    requires Plausible(db, r1) && Plausible(db, r2) && EventsOf(r1) == EventsOf(r2) == events
    ensures forall user :: AccountTier(Process(db, r1).subs, user) == AccountTier(Process(db, r2).subs, user)
    ensures Process(db, r1).installations == Process(db, r2).installations
  {
    var a, b := Process(db, r1), Process(db, r2);
    forall s
      ensures SameOutcome(Stored(a, s), Stored(b, s))
      ensures Stored(a, s).Some? ==> a.subs[s].user == b.subs[s].user
      ensures Stored(a, s) == Stored(db, s) <==> Stored(b, s) == Stored(db, s)
      ensures RowOk(Stored(a, s)) && RowOk(Stored(b, s))
    {
      SameEnd(db, events, r1, r2, s);
    }
    assert SameSubscriptions(db, a, b);
    forall user
      ensures AccountTier(a.subs, user) == AccountTier(b.subs, user)
      ensures Touched(db, a, user) == Touched(db, b, user)
    {
      SameTiers(db, a, b, user);
    }
    RunMirrors(db, events, r1);
    RunMirrors(db, events, r2);
    forall i | i in a.installations
      ensures i in b.installations && a.installations[i] == b.installations[i]
    {
      assert i in db.installations.Keys;
    }
  }

  // ---- the account of a subscription ----------------------------------------------------------

  ghost predicate OwnerConverges(db: Db, events: set<Event>, s: SubId) {
    forall r1, r2 :: Plausible(db, r1) && Plausible(db, r2) && EventsOf(r1) == events && EventsOf(r2) == events ==>
      Lookup(Process(db, r1), s) == Lookup(Process(db, r2), s)
  }

  /** Delivered one after another, the first event that claims a new subscription gives it its account. */
  lemma {:induction false} FirstClaimOwns(db: Db, events: seq<Event>, s: SubId)
    requires s !in db.subs && events != [] && events[0].sub == s && events[0].account.Some?
    ensures Lookup(Process(db, RunOf(db, events)), s) == events[0].account
    decreases |events|
  {
    var n := |events| - 1;
    var before := RunOf(db, events[..n]);
    var d := Delivery(events[n], Lookup(Process(db, before), events[n].sub));
    assert RunOf(db, events) == before + [d];
    ProcessMore(db, before, d);
    if n > 0 {
      FirstClaimOwns(db, events[..n], s);
    } else {
      assert before == [] && Process(db, before) == db;
    }
  }

  /** Some order gives a new subscription to the account that the given event claims. */
  lemma ClaimedFirst(db: Db, events: set<Event>, e: Event) returns (run: seq<Delivery>)
    requires e in events && e.sub !in db.subs && e.account.Some?
    ensures Plausible(db, run) && EventsOf(run) == events && Lookup(Process(db, run), e.sub) == e.account
  {
    var rest := ListOf(events - {e});
    forall x
      ensures x in Elements([e] + rest) <==> x in events
    {
      assert x in Elements(rest) <==> x in events - {e};
    }
    run := RunOf(db, [e] + rest);
    RunOfIsPlausible(db, [e] + rest);
    FirstClaimOwns(db, [e] + rest, e.sub);
  }

  lemma OwnerIs(db: Db, events: set<Event>, run: seq<Delivery>, s: SubId)
    requires Plausible(db, run) && EventsOf(run) == events
    ensures Named(events, s) == {} && s !in db.subs ==> Lookup(Process(db, run), s) == None
    ensures Named(events, s) != {} || s in db.subs ==>
              s in Process(db, run).subs && OwnedBy(db, events, s, Process(db, run).subs[s].user)
  {
    Owners(db, events, run);
    StaysStored(db, run, s);
    NamedAreBooked(run, s);
    if Named(events, s) == {} && s !in db.subs {
      UnnamedBooksNone(db, run, s);
    }
  }

  /** The account never depends on the order exactly when only one account is claimed. */
  lemma OwnersConvergeExactly(db: Db, events: set<Event>, s: SubId)
    ensures OwnerConverges(db, events, s) <==> OneAccountOn(db, events, s)
  {
    if OwnerConverges(db, events, s) && s !in db.subs {
      forall a, b | a in Named(events, s) && b in Named(events, s)
        ensures a.account == b.account
      {
        var first := ClaimedFirst(db, events, a);
        var other := ClaimedFirst(db, events, b);
        assert Lookup(Process(db, first), s) == Lookup(Process(db, other), s);
      }
    }
    if OneAccountOn(db, events, s) {
      forall r1, r2 | Plausible(db, r1) && Plausible(db, r2) && EventsOf(r1) == events && EventsOf(r2) == events
        ensures Lookup(Process(db, r1), s) == Lookup(Process(db, r2), s)
      {
        OwnerIs(db, events, r1, s);
        OwnerIs(db, events, r2, s);
      }
    }
  }

  /** A revocation beats an entitling event of the same instant, whichever comes first. */
  lemma RevocationWinsTies(db: Db, grant: Event, revoke: Event, r1: seq<Delivery>)
    requires DbOk(db) && Plausible(db, r1) && EventsOf(r1) == {grant, revoke}
    requires grant.sub == revoke.sub && grant.at == revoke.at && Revokes(revoke)
    requires grant.sub in db.subs || (grant.account.Some? && revoke.account.Some?)
    requires grant.sub in db.subs ==> db.subs[grant.sub].lastEventAt.None? || db.subs[grant.sub].lastEventAt.value <= grant.at
    ensures grant.sub in Process(db, r1).subs && Process(db, r1).subs[grant.sub].plan == FREE
  {
    var s := grant.sub;
    RunAgrees(db, r1, s);
    NamedAreBooked(r1, s);
    if s in db.subs {
      StoredBooksAll(db, r1, s);
    }
    assert revoke in LiveOn(r1, s) && LiveOn(r1, s) <= {grant, revoke} by {
      assert revoke in EventsOf(r1);
      assert revoke in On(EventsOf(r1), s);
      assert revoke.account.Some? ==> revoke in Named(EventsOf(r1), s);
    }
    assert RevokedAt(LiveOn(r1, s), revoke.at);
  }

  /** Two claims of one new subscription: its account, that account's tier and its installation depend on the order. */
  lemma TwoClaims()
    ensures var a := Event(1, "active", Some(INDIE), Some(7), 10);
            var b := Event(1, "active", Some(INDIE), Some(8), 20);
            var db := Db(map[], map[3 := Installation(7, FREE)]);
            var ab, ba := Process(db, RunOf(db, [a, b])), Process(db, RunOf(db, [b, a]));
            && OneGrantPerInstant({a, b}) && (forall s :: Decided(db, {a, b}, s)) && !OneAccountOn(db, {a, b}, 1)
            && AccountTier(ab.subs, 7) == INDIE && AccountTier(ba.subs, 7) == FREE
            && ab.installations == map[3 := Installation(7, INDIE)] && ba.installations == db.installations
  {
    hide *;
    var a := Event(1, "active", Some(INDIE), Some(7), 10);
    var b := Event(1, "active", Some(INDIE), Some(8), 20);
    var db := Db(map[], map[3 := Installation(7, FREE)]);
    TwoDeliveries(db, a, b);
    TwoDeliveries(db, b, a);
    ClaimsInOrder();
    ClaimsReversed();
    ClaimsDecided();
  }

  lemma ClaimsDecided()
    ensures var a := Event(1, "active", Some(INDIE), Some(7), 10);
            var b := Event(1, "active", Some(INDIE), Some(8), 20);
            var db := Db(map[], map[3 := Installation(7, FREE)]);
            OneGrantPerInstant({a, b}) && (forall s :: Decided(db, {a, b}, s)) && !OneAccountOn(db, {a, b}, 1)
  {
    var a := Event(1, "active", Some(INDIE), Some(7), 10);
    var b := Event(1, "active", Some(INDIE), Some(8), 20);
    var db := Db(map[], map[3 := Installation(7, FREE)]);
    var both := {a, b};
    forall s
      ensures Decided(db, both, s)
    {
      if s == 1 {
        assert b in Named(both, 1) && Latest(On(both, 1), b) && !RevokedAt(On(both, 1), 20);
      } else {
        assert Named(both, s) == {};
      }
    }
    assert a in Named(both, 1) && b in Named(both, 1);
  }

  /** The tier of an account in a table of one subscription. */
  lemma OneRowTier(row: Subscription, user: UserId)
    requires Entitling(row.status)
    ensures AccountTier(map[1 := row], user) == if row.user == user then row.plan else FREE
  {
    var subs := map[1 := row];
    assert 1 in subs && subs[1] == row;
  }

  lemma ClaimsInOrder()
    ensures var a := Event(1, "active", Some(INDIE), Some(7), 10);
            var b := Event(1, "active", Some(INDIE), Some(8), 20);
            var db := Db(map[], map[3 := Installation(7, FREE)]);
            var first := Receive(db, Delivery(a, Lookup(db, 1)));
            var ab := Receive(first, Delivery(b, Lookup(first, 1)));
            AccountTier(ab.subs, 7) == INDIE && ab.installations == map[3 := Installation(7, INDIE)]
  {
    hide AccountTier;
    hide HoldsTier;
    var db := Db(map[], map[3 := Installation(7, FREE)]);
    var first := Receive(db, Delivery(Event(1, "active", Some(INDIE), Some(7), 10), None));
    var row, later := Subscription(7, INDIE, "active", Some(10)), Subscription(7, INDIE, "active", Some(20));
    OneRowTier(row, 7);
    OneRowTier(later, 7);
    assert first.subs == map[1 := row];
    assert first.installations == map[3 := Installation(7, INDIE)];
    var ab := Receive(first, Delivery(Event(1, "active", Some(INDIE), Some(8), 20), Some(7)));
    assert ab.subs == map[1 := later];
  }

  lemma ClaimsReversed()
    ensures var a := Event(1, "active", Some(INDIE), Some(7), 10);
            var b := Event(1, "active", Some(INDIE), Some(8), 20);
            var db := Db(map[], map[3 := Installation(7, FREE)]);
            var first := Receive(db, Delivery(b, Lookup(db, 1)));
            var ba := Receive(first, Delivery(a, Lookup(first, 1)));
            AccountTier(ba.subs, 7) == FREE && ba.installations == db.installations
  {
    hide AccountTier;
    hide HoldsTier;
    var db := Db(map[], map[3 := Installation(7, FREE)]);
    var row := Subscription(8, INDIE, "active", Some(20));
    var first := Receive(db, Delivery(Event(1, "active", Some(INDIE), Some(8), 20), None));
    OneRowTier(row, 7);
    assert first.subs == map[1 := row];
    assert first.installations == db.installations;
    assert Receive(first, Delivery(Event(1, "active", Some(INDIE), Some(7), 10), Some(8))) == first;
  }

  lemma TwoDeliveries(db: Db, x: Event, y: Event)
    ensures var first := Receive(db, Delivery(x, Lookup(db, x.sub)));
            Process(db, RunOf(db, [x, y])) == Receive(first, Delivery(y, Lookup(first, y.sub)))
  {
    assert [x, y][..1] == [x] && [x][..0] == [];
    var d := Delivery(x, Lookup(db, x.sub));
    assert RunOf(db, [x]) == [d];
    ProcessMore(db, [], d);
    assert [] + [d] == [d];
    var first := Process(db, [d]);
    var e := Delivery(y, Lookup(first, y.sub));
    assert RunOf(db, [x, y]) == [d] + [e];
    ProcessMore(db, [d], e);
  }
}
