/**
 * Convergence of billing events. The stored outcome of a subscription is a function of the
 * set of events booked on it; an event that names no account is dropped while its
 * subscription is unknown, and that is the only way order can show.
 */
module BillingTheorems {
  import opened Basics
  import opened Billing

  // ---- one subscription ------------------------------------------------------------------

  function TimeOf(s: Option<Subscription>): Option<int> {
    if s.Some? then s.value.lastEventAt else None
  }

  ghost predicate RevokedAt(live: set<Event>, t: int) {
    exists e :: e in live && e.at == t && Revokes(e)
  }

  /** What is stored after these events have been booked, in whatever order, on this initial row. */
  ghost predicate Agrees(init: Option<Subscription>, live: set<Event>, now: Option<Subscription>) {
    if live == {} then now == init
    else
      && now.Some? && now.value.lastEventAt.Some?
      && var t := now.value.lastEventAt.value;
         && (forall e :: e in live ==> e.at <= t)
         && (TimeOf(init).Some? ==> TimeOf(init).value <= t)
         && (TimeOf(init) == Some(t) || exists e :: e in live && e.at == t)
         && (now.value.plan != FREE ==> Entitling(now.value.status))
         && (RevokedAt(live, t) ==> now.value.plan == FREE && !Entitling(now.value.status))
         && (TimeOf(init) == Some(t) && !(RevokedAt(live, t) && Entitling(init.value.status)) ==> now == init)
         && (TimeOf(init) != Some(t) && !RevokedAt(live, t) ==>
               exists e :: e in live && e.at == t && now.value.plan == TierOf(e))
         && (now == init || exists e :: e in live && e.at == t && now.value.plan == TierOf(e) && now.value.status == e.status)
  }

  predicate RowOk(s: Option<Subscription>) {
    s.Some? && s.value.plan != FREE ==> Entitling(s.value.status)
  }

  function Stored(db: Db, s: SubId): Option<Subscription> {
    if s in db.subs then Some(db.subs[s]) else None
  }

  /** Booking one more event keeps the description true. */
  lemma BookingAgrees(init: Option<Subscription>, live: set<Event>, now: Option<Subscription>, e: Event, user: UserId)
    requires RowOk(init) && Agrees(init, live, now)
    ensures Agrees(init, live + {e},
                   if now.Some? && Outdated(now.value, e) then now
                   else Some(Subscription(user, TierOf(e), e.status, Some(e.at))))
  {
  }

  // ---- a whole run -------------------------------------------------------------------------

  predicate Booked(d: Delivery) {
    AccountFor(d).Some?
  }

  function LiveOn(run: seq<Delivery>, s: SubId): set<Event> {
    set d | d in run && Booked(d) && d.event.sub == s :: d.event
  }

  lemma {:induction false} RunAgrees(db: Db, run: seq<Delivery>, s: SubId)
    requires RowOk(Stored(db, s))
    ensures Agrees(Stored(db, s), LiveOn(run, s), Stored(Process(db, run), s))
    decreases |run|
  {
    if run != [] {
      var n := |run| - 1;
      var d := run[n];
      RunAgrees(db, run[..n], s);
      assert run == run[..n] + [d];
      if Booked(d) && d.event.sub == s {
        assert LiveOn(run, s) == LiveOn(run[..n], s) + {d.event};
        BookingAgrees(Stored(db, s), LiveOn(run[..n], s), Stored(Process(db, run[..n]), s), d.event, AccountFor(d).value);
      } else {
        assert LiveOn(run, s) == LiveOn(run[..n], s);
      }
    }
  }

  /**
   * After any run a stored row that has changed is that of a latest booked event: its status,
   * and the plan bought with it if the status is a paid-up one; a revocation of that instant wins.
   */
  lemma StoredFollows(db: Db, run: seq<Delivery>, s: SubId)
    requires RowOk(Stored(db, s)) && s in Process(db, run).subs && Stored(db, s) != Stored(Process(db, run), s)
    ensures var row, live := Process(db, run).subs[s], LiveOn(run, s);
            && row.lastEventAt.Some? && (forall e :: e in live ==> e.at <= row.lastEventAt.value)
            && (exists e :: e in live && e.at == row.lastEventAt.value && row.status == e.status &&
                            row.plan == if e.product.Some? && (e.status == "active" || e.status == "past_due" || e.status == "trialing")
                                        then e.product.value else FREE)
            && ((exists e :: e in live && e.at == row.lastEventAt.value && e.status == "canceled") ==> row.plan == FREE)
  {
    RunAgrees(db, run, s);
    var row, live := Process(db, run).subs[s], LiveOn(run, s);
    var e :| e in live && e.at == row.lastEventAt.value && row.plan == TierOf(e) && row.status == e.status;
    if c :| c in live && c.at == row.lastEventAt.value && c.status == "canceled" {
      assert Revokes(c);
    }
  }

  // ---- which events are booked --------------------------------------------------------------

  function On(events: set<Event>, s: SubId): set<Event> {
    set e | e in events && e.sub == s
  }

  function Named(events: set<Event>, s: SubId): set<Event> {
    set e | e in events && e.sub == s && e.account.Some?
  }

  lemma {:induction false} StaysStored(db: Db, run: seq<Delivery>, s: SubId)
    ensures s in db.subs ==> s in Process(db, run).subs
    ensures s in Process(db, run).subs && s !in db.subs ==> LiveOn(run, s) != {}
    ensures LiveOn(run, s) != {} ==> s in Process(db, run).subs
    decreases |run|
  {
    if run != [] {
      var n := |run| - 1;
      var d := run[n];
      StaysStored(db, run[..n], s);
      assert run == run[..n] + [d];
      if Booked(d) && d.event.sub == s {
        assert d.event in LiveOn(run, s);
      } else {
        assert LiveOn(run, s) == LiveOn(run[..n], s);
      }
    }
  }

  lemma PlausiblePrefix(db: Db, run: seq<Delivery>, n: nat)
    requires Plausible(db, run) && n <= |run|
    ensures Plausible(db, run[..n])
  {
    forall k | 0 <= k < n
      ensures LookedUp(db, run[..n], k)
    {
      assert LookedUp(db, run, k);
      var j :| 0 <= j <= k && run[k].known == Lookup(Process(db, run[..j]), run[k].event.sub);
      assert run[..n][..j] == run[..j];
    }
  }

  lemma NamedAreBooked(run: seq<Delivery>, s: SubId)
    ensures Named(EventsOf(run), s) <= LiveOn(run, s) <= On(EventsOf(run), s)
  {
  }

  /** A stored subscription books every event. */
  lemma StoredBooksAll(db: Db, run: seq<Delivery>, s: SubId)
    requires Plausible(db, run) && s in db.subs
    ensures LiveOn(run, s) == On(EventsOf(run), s)
  {
    NamedAreBooked(run, s);
    forall e | e in On(EventsOf(run), s)
      ensures e in LiveOn(run, s)
    {
      var d :| d in run && d.event == e;
      var k :| 0 <= k < |run| && run[k] == d;
      assert LookedUp(db, run, k);
      var j :| 0 <= j <= k && d.known == Lookup(Process(db, run[..j]), e.sub);
      StaysStored(db, run[..j], s);
    }
  }

  /** Nothing is booked on an unknown subscription that no event gives an account. */
  lemma {:induction false} UnnamedBooksNone(db: Db, run: seq<Delivery>, s: SubId)
    requires Plausible(db, run) && s !in db.subs && Named(EventsOf(run), s) == {}
    ensures LiveOn(run, s) == {}
    decreases |run|
  {
    if run != [] {
      var n := |run| - 1;
      var d := run[n];
      EarlierUnnamed(db, run, n, s);
      UnnamedBooksNone(db, run[..n], s);
      assert run == run[..n] + [d];
      if d.event.sub == s {
        assert LookedUp(db, run, n);
        var j :| 0 <= j <= n && d.known == Lookup(Process(db, run[..j]), s);
        EarlierUnnamed(db, run, j, s);
        UnnamedBooksNone(db, run[..j], s);
        StaysStored(db, run[..j], s);
        assert d.event in EventsOf(run) && d.event !in Named(EventsOf(run), s);
        assert !Booked(d);
      }
    }
  }

  lemma EarlierUnnamed(db: Db, run: seq<Delivery>, n: nat, s: SubId)
    requires Plausible(db, run) && n <= |run| && Named(EventsOf(run), s) == {}
    ensures Plausible(db, run[..n]) && Named(EventsOf(run[..n]), s) == {}
  {
    PlausiblePrefix(db, run, n);
    forall e | e in EventsOf(run[..n])
      ensures e in EventsOf(run)
    {
    }
    assert forall e :: e in Named(EventsOf(run[..n]), s) ==> e in Named(EventsOf(run), s);
  }

  // ---- the exact condition ---------------------------------------------------------------------

  /** At most one event per subscription and instant does not revoke. */
  ghost predicate OneGrantPerInstant(events: set<Event>) {
    forall a, b :: a in events && b in events && a.sub == b.sub && a.at == b.at && !Revokes(a) && !Revokes(b) ==> a == b
  }

  ghost predicate Latest(events: set<Event>, e: Event) {
    e in events && forall x :: x in events ==> x.at <= e.at
  }

  /**
   * For a subscription that is not stored yet: if any of its events names an account, one of
   * the latest does, and a revocation at that instant is matched by one of them granting nothing.
   */
  ghost predicate Decided(db: Db, events: set<Event>, s: SubId) {
    s in db.subs || Named(events, s) == {} ||
    exists e :: e in Named(events, s) && Latest(On(events, s), e) &&
                (RevokedAt(On(events, s), e.at) ==> TierOf(e) == FREE)
  }

  ghost predicate SameOutcome(a: Option<Subscription>, b: Option<Subscription>) {
    (a.Some? <==> b.Some?) && (a.Some? ==> a.value.plan == b.value.plan && a.value.lastEventAt == b.value.lastEventAt)
  }

  ghost predicate DbOk(db: Db) {
    forall s :: s in db.subs ==> RowOk(Some(db.subs[s]))
  }

  ghost predicate Covers(init: Option<Subscription>, all: set<Event>, live: set<Event>, e: Event) {
    live <= all && e in live && Latest(all, e) && (RevokedAt(all, e.at) ==> TierOf(e) == FREE)
  }

  /** Any two booked sets that both hold the deciding event give the same plan and time. */
  lemma DecidedOutcome(all: set<Event>, live: set<Event>, now: Option<Subscription>, e: Event)
    requires OneGrantPerInstant(all) && Covers(None, all, live, e) && (forall x :: x in all ==> x.sub == e.sub)
    requires Agrees(None, live, now)
    ensures now.Some? && now.value.lastEventAt == Some(e.at)
    ensures now.value.plan == if RevokedAt(all, e.at) then FREE else TierOf(e)
  {
  }

  /** On a stored subscription, or with equal booked sets, the outcome is determined outright. */
  lemma EqualSetsOutcome(init: Option<Subscription>, live: set<Event>, a: Option<Subscription>, b: Option<Subscription>)
    requires RowOk(init) && Agrees(init, live, a) && Agrees(init, live, b)
    requires forall x, y :: x in live && y in live && x.at == y.at && !Revokes(x) && !Revokes(y) ==> x == y
    ensures SameOutcome(a, b)
  {
  }

  lemma RunOutcome(db: Db, events: set<Event>, run: seq<Delivery>, s: SubId, e: Event)
    requires DbOk(db) && OneGrantPerInstant(events) && EventsOf(run) == events && s !in db.subs
    requires e in Named(events, s) && Latest(On(events, s), e) && (RevokedAt(On(events, s), e.at) ==> TierOf(e) == FREE)
    ensures Stored(Process(db, run), s).Some?
    ensures Stored(Process(db, run), s).value.lastEventAt == Some(e.at)
    ensures Stored(Process(db, run), s).value.plan == if RevokedAt(On(events, s), e.at) then FREE else TierOf(e)
  {
    RunAgrees(db, run, s);
    NamedAreBooked(run, s);
    DecidedOutcome(On(events, s), LiveOn(run, s), Stored(Process(db, run), s), e);
  }

  lemma SubscriptionConverges(db: Db, events: set<Event>, r1: seq<Delivery>, r2: seq<Delivery>, s: SubId)
    requires DbOk(db) && OneGrantPerInstant(events) && Decided(db, events, s)
    requires Plausible(db, r1) && Plausible(db, r2) && EventsOf(r1) == EventsOf(r2) == events
    ensures SameOutcome(Stored(Process(db, r1), s), Stored(Process(db, r2), s))
  {
    if s in db.subs {
      StoredBooksAll(db, r1, s);
      StoredBooksAll(db, r2, s);
      SameBookings(db, events, r1, r2, s);
    } else if Named(events, s) == {} {
      UnnamedBooksNone(db, r1, s);
      UnnamedBooksNone(db, r2, s);
      SameBookings(db, events, r1, r2, s);
    } else {
      var e :| e in Named(events, s) && Latest(On(events, s), e) && (RevokedAt(On(events, s), e.at) ==> TierOf(e) == FREE);
      RunOutcome(db, events, r1, s, e);
      RunOutcome(db, events, r2, s, e);
    }
  }

  lemma SameBookings(db: Db, events: set<Event>, r1: seq<Delivery>, r2: seq<Delivery>, s: SubId)
    requires DbOk(db) && OneGrantPerInstant(events) && EventsOf(r1) == EventsOf(r2) == events
    requires LiveOn(r1, s) == LiveOn(r2, s)
    ensures SameOutcome(Stored(Process(db, r1), s), Stored(Process(db, r2), s))
  {
    RunAgrees(db, r1, s);
    RunAgrees(db, r2, s);
    NamedAreBooked(r1, s);
    EqualSetsOutcome(Stored(db, s), LiveOn(r1, s), Stored(Process(db, r1), s), Stored(Process(db, r2), s));
  }

  // ---- and it is necessary ---------------------------------------------------------------------

  function Elements(events: seq<Event>): set<Event> {
    set e | e in events
  }

  /** The run that takes these events one after another, each looked up when its turn comes. */
  function RunOf(db: Db, events: seq<Event>): (run: seq<Delivery>)
    ensures |run| == |events|
    decreases |events|
  {
    if events == [] then []
    else
      var n := |events| - 1;
      var before := RunOf(db, events[..n]);
      before + [Delivery(events[n], Lookup(Process(db, before), events[n].sub))]
  }

  lemma {:induction false} RunOfAt(db: Db, events: seq<Event>, k: nat)
    requires k < |events|
    ensures RunOf(db, events)[..k] == RunOf(db, events[..k])
    ensures RunOf(db, events)[k] == Delivery(events[k], Lookup(Process(db, RunOf(db, events[..k])), events[k].sub))
    decreases |events|
  {
    hide Process;
    hide Lookup;
    var n := |events| - 1;
    var run, before := RunOf(db, events), RunOf(db, events[..n]);
    assert run == before + [Delivery(events[n], Lookup(Process(db, before), events[n].sub))];
    assert run[..n] == before;
    if k < n {
      RunOfAt(db, events[..n], k);
      assert events[..n][..k] == events[..k];
      assert run[..k] == before[..k];
    }
  }

  lemma RunOfIsPlausible(db: Db, events: seq<Event>)
    ensures Plausible(db, RunOf(db, events))
    ensures EventsOf(RunOf(db, events)) == Elements(events)
  {
    var run := RunOf(db, events);
    forall k | 0 <= k < |run|
      ensures LookedUp(db, run, k) && run[k].event == events[k]
    {
      RunOfAt(db, events, k);
      assert run[k].known == Lookup(Process(db, run[..k]), run[k].event.sub);
    }
    forall e | e in events
      ensures e in EventsOf(run)
    {
      var k :| 0 <= k < |events| && events[k] == e;
      assert run[k] in run;
    }
  }

  lemma ListOf(events: set<Event>) returns (list: seq<Event>)
    ensures Elements(list) == events
  {
    list := [];
    if events != {} {
      var e :| e in events;
      var rest := ListOf(events - {e});
      list := [e] + rest;
      forall x
        ensures x in Elements(list) <==> x in events
      {
        assert x in Elements(rest) <==> x in events - {e};
      }
    }
  }

  /** Events that name an account, then those that do not: everything on the subscription is booked. */
  lemma NamedFirst(db: Db, named: seq<Event>, anonymous: seq<Event>, s: SubId)
    requires forall e :: e in named ==> e.account.Some?
    requires exists e :: e in named && e.sub == s
    ensures LiveOn(RunOf(db, named + anonymous), s) == On(Elements(named + anonymous), s)
  {
    var all := named + anonymous;
    var run := RunOf(db, all);
    RunOfIsPlausible(db, all);
    NamedAreBooked(run, s);
    forall e | e in On(Elements(all), s)
      ensures e in LiveOn(run, s)
    {
      var k :| 0 <= k < |all| && all[k] == e;
      RunOfAt(db, all, k);
      if k >= |named| {
        var f :| f in named && f.sub == s;
        var i :| 0 <= i < |named| && named[i] == f;
        RunOfAt(db, all[..k], i);
        assert all[..k][i] == f;
        var earlier := RunOf(db, all[..k]);
        assert earlier[i] in earlier && Booked(earlier[i]) && earlier[i].event == f;
        assert f in LiveOn(earlier, s);
        StaysStored(db, earlier, s);
      }
      assert run[k] in run && Booked(run[k]);
    }
  }

  /** The other way round, the anonymous events are all dropped. */
  lemma AnonymousFirst(db: Db, anonymous: seq<Event>, named: seq<Event>, s: SubId)
    requires s !in db.subs
    requires forall e :: e in named ==> e.account.Some?
    requires forall e :: e in anonymous ==> e.account.None?
    ensures LiveOn(RunOf(db, anonymous + named), s) == Named(Elements(anonymous + named), s)
  {
    var all := anonymous + named;
    var run := RunOf(db, all);
    RunOfIsPlausible(db, all);
    NamedAreBooked(run, s);
    forall e | e in LiveOn(run, s)
      ensures e.account.Some?
    {
      var d :| d in run && Booked(d) && d.event.sub == s && d.event == e;
      var k :| 0 <= k < |run| && run[k] == d;
      RunOfAt(db, all, k);
      if k < |anonymous| {
        RunOfIsPlausible(db, all[..k]);
        assert forall x :: x in all[..k] ==> x in anonymous;
        assert Named(EventsOf(RunOf(db, all[..k])), s) == {};
        UnnamedBooksNone(db, RunOf(db, all[..k]), s);
        StaysStored(db, RunOf(db, all[..k]), s);
      }
    }
  }

  ghost predicate Converges(db: Db, events: set<Event>, s: SubId) {
    forall r1, r2 :: Plausible(db, r1) && Plausible(db, r2) && EventsOf(r1) == events && EventsOf(r2) == events ==>
      SameOutcome(Stored(Process(db, r1), s), Stored(Process(db, r2), s))
  }

  lemma ConvergenceDecides(db: Db, events: set<Event>, s: SubId)
    requires DbOk(db) && Converges(db, events, s)
    ensures Decided(db, events, s)
  {
    if s !in db.subs && Named(events, s) != {} {
      var named := ListOf(set e | e in events && e.account.Some?);
      var anonymous := ListOf(set e | e in events && e.account.None?);
      forall e | e in named
        ensures e.account.Some?
      {
        assert e in Elements(named);
      }
      forall e | e in anonymous
        ensures e.account.None?
      {
        assert e in Elements(anonymous);
      }
      forall e | e in events
        ensures e in named || e in anonymous
      {
        assert e in Elements(named) || e in Elements(anonymous);
      }
      forall e | e in named || e in anonymous
        ensures e in events
      {
        assert e in Elements(named) || e in Elements(anonymous);
      }
      assert Elements(named + anonymous) == events;
      assert Elements(anonymous + named) == events;
      var f :| f in Named(events, s);
      assert f in named && f.sub == s;
      NamedFirst(db, named, anonymous, s);
      AnonymousFirst(db, anonymous, named, s);
      var r1, r2 := RunOf(db, named + anonymous), RunOf(db, anonymous + named);
      RunOfIsPlausible(db, named + anonymous);
      RunOfIsPlausible(db, anonymous + named);
      RunAgrees(db, r1, s);
      RunAgrees(db, r2, s);
      SameMeansDecided(events, s, Stored(Process(db, r1), s), Stored(Process(db, r2), s));
    }
  }

  lemma SameMeansDecided(events: set<Event>, s: SubId, a: Option<Subscription>, b: Option<Subscription>)
    requires Named(events, s) != {}
    requires Agrees(None, On(events, s), a) && Agrees(None, Named(events, s), b) && SameOutcome(a, b)
    ensures exists e :: e in Named(events, s) && Latest(On(events, s), e) &&
                        (RevokedAt(On(events, s), e.at) ==> TierOf(e) == FREE)
  {
  }

  /** The stored plan and event time are independent of order and repetition exactly when they are decided. */
  lemma ConvergesExactly(db: Db, events: set<Event>, s: SubId)
    requires DbOk(db) && OneGrantPerInstant(events)
    ensures Converges(db, events, s) <==> Decided(db, events, s)
  {
    if Converges(db, events, s) {
      ConvergenceDecides(db, events, s);
    }
    if Decided(db, events, s) {
      forall r1, r2 | Plausible(db, r1) && Plausible(db, r2) && EventsOf(r1) == events && EventsOf(r2) == events
        ensures SameOutcome(Stored(Process(db, r1), s), Stored(Process(db, r2), s))
      {
        SubscriptionConverges(db, events, r1, r2, s);
      }
    }
  }

  /** One activation that names its account and a later revocation that does not: the order shows. */
  lemma DroppedRevocation()
    ensures var grant := Event(1, "active", Some(INDIE), Some(7), 10);
            var revoke := Event(1, CANCELED, Some(INDIE), None, 20);
            var db := Db(map[], map[]);
            && OneGrantPerInstant({grant, revoke}) && !Decided(db, {grant, revoke}, 1)
            && Stored(Process(db, RunOf(db, [grant, revoke])), 1) == Some(Subscription(7, FREE, CANCELED, Some(20)))
            && Stored(Process(db, RunOf(db, [revoke, grant])), 1) == Some(Subscription(7, INDIE, "active", Some(10)))
  {
    var grant := Event(1, "active", Some(INDIE), Some(7), 10);
    var revoke := Event(1, CANCELED, Some(INDIE), None, 20);
    var db := Db(map[], map[]);
    var g, r, r0 := Delivery(grant, None), Delivery(revoke, Some(7)), Delivery(revoke, None);
    assert [grant, revoke][..1] == [grant] && [revoke, grant][..1] == [revoke];
    assert [grant][..0] == [] && [revoke][..0] == [];
    assert RunOf(db, [grant]) == [g] && RunOf(db, [revoke]) == [r0];
    ProcessMore(db, [], g);
    assert [] + [g] == [g];
    var one := Process(db, [g]);
    assert Stored(one, 1) == Some(Subscription(7, INDIE, "active", Some(10)));
    assert RunOf(db, [grant, revoke]) == [g, r];
    ProcessMore(db, [g], r);
    assert [g] + [r] == [g, r];
    assert Applies(one, r);
    ProcessMore(db, [], r0);
    assert [] + [r0] == [r0];
    assert Process(db, [r0]) == db;
    assert RunOf(db, [revoke, grant]) == [r0, g];
    ProcessMore(db, [r0], g);
    assert [r0] + [g] == [r0, g];
    var both := {grant, revoke};
    assert revoke in On(both, 1) && grant in Named(both, 1);
    forall e | e in Named(both, 1)
      ensures !Latest(On(both, 1), e)
    {
      assert e == grant;
    }
    assert !Decided(db, both, 1);
    assert OneGrantPerInstant(both);
  }
}
