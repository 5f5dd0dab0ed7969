/**
 * The quota, lifecycle, recovery and retention code run against the shared job table:
 * each transaction is one event of the review protocol (a reservation is three), and
 * between any two of them everybody else may do whatever the protocol allows.
 */
module ReviewService {
  import opened Basics
  import opened ReviewProtocol
  import opened ReviewTheorems

  const BATCH_SIZE := 100

  /** How long a job may show no progress: the review timeout, at least a minute, and two minutes more. */
  function AbandonedGrace(reviewTimeout: nat): nat {
    (if reviewTimeout < 60_000 then 60_000 else reviewTimeout) + 120_000
  }

  datatype Reserved = Threw | AlreadyCharged(current: int) | Denied(notEarliest: bool) | ChargedNow(current: int)

  /** What BullMQ says about a job: nothing usable, or its state and when it was last started. */
  datatype QueueView =
    | Unavailable
    | Ambiguous
    | Mismatched
    | Gone
    | Failed
    | Finished
    | Active(processedOn: Option<int>)
    | Waiting

  datatype Verdict = Stop(status: Status) | Adopt | Leave | QueueDown

  /** The branches of recoverReviewsOnce for one listed job. */
  function Judge(row: Job, active: bool, queueDown: bool, queue: QueueView, now: int, grace: nat): Verdict {
    var stale := now - row.updatedAt > grace;
    if !active then Stop(CANCELLED)
    else if queueDown then Leave
    else
      match queue
      case Unavailable => QueueDown
      case Ambiguous => Leave
      case Mismatched => Leave
      case Failed => Stop(FAILED)
      case Finished => Stop(FAILED)
      case Gone => if stale then Stop(FAILED) else Leave
      case Active(processedOn) =>
        if stale && (processedOn.None? || now - processedOn.value > grace) then Stop(TIMEOUT)
        else if stale then Leave else Adopt
      case Waiting => Adopt
  }

  /** Which review is stopped, and as what; an unreadable queue stops no review of an active repository. */
  lemma Judgement(row: Job, active: bool, queueDown: bool, queue: QueueView, now: int, grace: nat)
    ensures var v := Judge(row, active, queueDown, queue, now, grace);
            && (v == Stop(CANCELLED) <==> !active)
            && (v == Stop(FAILED) <==>
                active && !queueDown && (queue in {QueueView.Failed, Finished} || (queue == Gone && now - row.updatedAt > grace)))
            && (v == Stop(TIMEOUT) <==>
                active && !queueDown && queue.Active? && now - row.updatedAt > grace &&
                (queue.processedOn.Some? ==> now - queue.processedOn.value > grace))
            && (v == Adopt <==>
                active && !queueDown && (queue == Waiting || (queue.Active? && now - row.updatedAt <= grace)))
            && (v == QueueDown <==> active && !queueDown && queue == Unavailable)
            && (v.Stop? ==> v.status in {CANCELLED, Status.FAILED, TIMEOUT})
  {
  }

  /** A recovery pass only stops reviews from the row it listed, or notes a queue id. */
  predicate IsRecoveryStep(e: Event) {
    e.Touch? || (e.Persist? && e.expected.Some? && e.status in {CANCELLED, Status.FAILED, TIMEOUT})
  }

  function StopsIn(run: seq<Event>): nat {
    if run == [] then 0 else StopsIn(run[..|run| - 1]) + if run[|run| - 1].Persist? then 1 else 0
  }

  /** The review was stopped with this status over the row as listed. */
  ghost predicate StoppedIn(log: seq<Event>, at: nat, id: JobId, row: Job, status: Status) {
    exists k :: at <= k < |log| && log[k].Persist? && log[k].id == id && log[k].status == status &&
                log[k].expected == Some((row.status, row.updatedAt))
  }

  /** The row is not there as it was listed, or another transaction holds it. */
  predicate MovedOn(w: World, id: JobId, row: Job) {
    id !in w.jobs || w.jobs[id].status != row.status || w.jobs[id].updatedAt != row.updatedAt ||
    exists u :: u in w.pending && w.pending[u].job == id
  }

  /** At some moment since, the row had moved on. */
  ghost predicate SeenMoved(start: World, log: seq<Event>, at: nat, id: JobId, row: Job) {
    exists past :: |past| >= at && past <= log && Legal(start, past) && MovedOn(After(start, past), id, row)
  }

  ghost predicate Dealt(start: World, log: seq<Event>, at: nat, own: seq<Event>, o: nat, id: JobId, row: Job, status: Status) {
    StoppedIn(own, o, id, row, status) || SeenMoved(start, log, at, id, row)
  }

  lemma StillDealt(start: World, log: seq<Event>, at: nat, own: seq<Event>, o: nat, log': seq<Event>, own': seq<Event>)
    requires log <= log' && own <= own'
    ensures forall id, row, status :: Dealt(start, log, at, own, o, id, row, status) ==> Dealt(start, log', at, own', o, id, row, status)
  {
    hide MovedOn;
    forall id, row, status | Dealt(start, log, at, own, o, id, row, status)
      ensures Dealt(start, log', at, own', o, id, row, status)
    {
      if StoppedIn(own, o, id, row, status) {
        var k :| o <= k < |own| && own[k].Persist? && own[k].id == id && own[k].status == status &&
                 own[k].expected == Some((row.status, row.updatedAt));
        assert own'[k] == own[k];
      }
    }
  }

  method Least(ids: set<JobId>) returns (least: JobId)
    requires ids != {}
    ensures least in ids && forall id :: id in ids ==> least <= id
  {
    least :| least in ids;
    var rest := ids - {least};
    while rest != {}
      invariant least in ids && rest <= ids
      invariant forall id :: id in ids ==> id in rest || least <= id
      decreases rest
    {
      var id :| id in rest;
      rest := rest - {id};
      if id < least {
        least := id;
      }
    }
  }

  /** The first ids in ascending order, at most n of them. */
  method FirstOf(ids: set<JobId>, n: nat) returns (page: seq<JobId>)
    ensures |page| == if |ids| <= n then |ids| else n
    ensures forall i, j :: 0 <= i < j < |page| ==> page[i] < page[j]
    ensures forall id :: id in page ==> id in ids
    ensures forall id, k :: id in ids && id !in page && 0 <= k < |page| ==> page[k] < id
  {
    page := [];
    var rest := ids;
    while rest != {} && |page| < n
      invariant rest <= ids && |page| + |rest| == |ids| && |page| <= n
      invariant forall i, j :: 0 <= i < j < |page| ==> page[i] < page[j]
      invariant forall id :: id in page ==> id in ids
      invariant forall id :: id in ids ==> id in page || id in rest
      invariant forall id, k :: id in rest && 0 <= k < |page| ==> page[k] < id
      decreases rest
    {
      var least := Least(rest);
      page := page + [least];
      rest := rest - {least};
    }
  }

  method UpTo(ids: set<JobId>, n: nat) returns (some: set<JobId>)
    ensures some <= ids && |some| == if |ids| <= n then |ids| else n
  {
    some := {};
    var rest := ids;
    while rest != {} && |some| < n
      invariant some + rest == ids && some !! rest && |some| <= n
      decreases rest
    {
      var id :| id in rest;
      some, rest := some + {id}, rest - {id};
    }
    assert |some + rest| == |some| + |rest|;
  }

  lemma SameSize(a: set<JobId>, b: set<JobId>)
    requires a <= b && |a| == |b|
    ensures a == b
  {
    assert |b - a| == |b| - |a|;
  }

  /** Whether the event is a step of the reservation this account is making here. */
  predicate StepOf(e: Event, me: set<UserId>) {
    (e.ReserveCheck? || e.ReserveCount? || e.ReserveCharge? || e.ReserveEnd?) && e.user in me
  }

  /** A failed job old enough to delete; one with a delivery plan is kept for its receipts. */
  predicate Expired(job: Job, cutoff: int) {
    job.status.FAILED? && job.updatedAt < cutoff && !job.hasPlan
  }

  class ReviewStore {
    var repos: map<RepoId, Repo>
    var jobs: map<JobId, Job>
    var used: set<JobId>
    var ledgers: seq<Ledger>
    var pending: map<UserId, Reservation>

    ghost var base: seq<Ledger>
    ghost const start: World
    // Everything that happened to the tables, and the part of it this service object did.
    ghost var history: seq<Event>
    ghost var own: seq<Event>

    ghost function View(): World
      reads this
    {
      World(repos, jobs, used, ledgers, base, pending)
    }

    ghost predicate Valid()
      reads this
    {
      Initial(start) && Legal(start, history) && After(start, history) == View()
    }

    constructor (repos: map<RepoId, Repo>, ledgers: seq<Ledger>)
      requires forall l :: l in ledgers ==> l.publicCount >= 0 && l.privateCount >= 0
      requires UniqueLedgers(ledgers)
      ensures Valid() && this.repos == repos && this.ledgers == ledgers && this.jobs == map[]
    {
      this.repos := repos;
      this.jobs := map[];
      this.used := {};
      this.ledgers := ledgers;
      this.pending := map[];
      this.base := ledgers;
      this.start := World(repos, map[], {}, ledgers, ledgers, map[]);
      this.history := [];
      this.own := [];
    }

    lemma ValidIsSafe()
      requires Valid()
      ensures Inv(View())
    {
      InitialInv(start);
      RunInv(start, history);
    }

    twostate predicate Did(e: Event)
      reads this
    {
      && old(Enabled(View(), e)) && View() == Next(old(View()), e)
      && history == old(history) + [e] && own == old(own) + [e]
    }

    ghost method LogOwn(before: World, e: Event)
      requires Initial(start) && Legal(start, history) && After(start, history) == before
      requires Enabled(before, e) && View() == Next(before, e)
      modifies this`history, this`own
      ensures Valid() && history == old(history) + [e] && own == old(own) + [e]
    {
      Extend(start, history, e);
      history := history + [e];
      own := own + [e];
    }

    ghost method LogOther(before: World, e: Event)
      requires Initial(start) && Legal(start, history) && After(start, history) == before
      requires Enabled(before, e) && View() == Next(before, e)
      modifies this`history
      ensures Valid() && history == old(history) + [e]
    {
      Extend(start, history, e);
      history := history + [e];
    }

    // ---- everybody else ---------------------------------------------------------------

    /** Any number of steps of others; the reservation of these accounts stays as it is. */
    method Await(me: set<UserId>)
      requires Valid()
      modifies this`repos, this`jobs, this`used, this`ledgers, this`pending, this`base, this`history
      ensures Valid() && old(history) <= history
      ensures forall u :: u in me && u in old(pending) ==> u in pending && pending[u] == old(pending[u])
    {
      var schedule: seq<Event> := *;
      for k := 0 to |schedule|
        invariant Valid() && old(history) <= history
        invariant forall u :: u in me && u in old(pending) ==> u in pending && pending[u] == old(pending[u])
      {
        PerformOther(schedule[k], me);
      }
    }

    method PerformOther(e: Event, me: set<UserId>)
      requires Valid()
      modifies this`repos, this`jobs, this`used, this`ledgers, this`pending, this`base, this`history
      ensures Valid() && old(history) <= history
      ensures forall u :: u in me && u in old(pending) ==> u in pending && pending[u] == old(pending[u])
    {
      var world := World(repos, jobs, used, ledgers, ledgers, pending);
      if Enabled(world, e) && !StepOf(e, me) {
        ghost var before := View();
        assert Enabled(before, e);
        var after := Next(world, e);
        repos, jobs, used, ledgers, pending := after.repos, after.jobs, after.used, after.ledgers, after.pending;
        base := Next(before, e).base;
        LogOther(before, e);
      }
    }

    // ---- reserveReview -------------------------------------------------------------------

    /**
     * Charge a review under the account, repository and job locks. A charge is written only
     * to an in-progress job without one, on the account's ledger of the month counted, and a
     * limited charge only below the limit and on the earliest private repository.
     */
    method ReserveReview(account: Option<UserId>, id: JobId, isPrivate: bool, installation: Option<nat>, month: Month, tier: Tier)
      returns (r: Reserved)
      requires Valid()
      modifies this`repos, this`jobs, this`used, this`ledgers, this`pending, this`base, this`history, this`own
      ensures Valid() && old(history) <= history && old(own) <= own
      ensures r.ChargedNow? ==>
                && account.Some? && id in jobs && jobs[id].receipt.Some? && !jobs[id].refunded
                && jobs[id].receipt.value.isPrivate == isPrivate
                && jobs[id].status !in {COMPLETED, Status.FAILED, SKIPPED, CANCELLED, TIMEOUT}
                && jobs[id].receipt.value.ledger < |ledgers| && ledgers[jobs[id].receipt.value.ledger].owner == account.value
                && ledgers[jobs[id].receipt.value.ledger].month == month && !ledgers[jobs[id].receipt.value.ledger].legacy
      ensures r.ChargedNow? ==> |own| == |old(own)| + 3 && own[|old(own)| + 2].ReserveCharge?
      ensures !r.ChargedNow? ==> forall i :: |old(own)| <= i < |own| ==> !own[i].ReserveCharge?
      ensures r.Denied? ==> isPrivate && tier == FREE
      ensures r.Threw? ==>
                account.None? || Held(account.value, id) || !Available(account.value, id, installation) ||
                (jobs[id].receipt.Some? && (jobs[id].refunded || jobs[id].receipt.value.isPrivate != isPrivate))
      ensures r.AlreadyCharged? ==>
                id in jobs && jobs[id].receipt.Some? && !jobs[id].refunded && jobs[id].receipt.value.isPrivate == isPrivate
      ensures account.None? ==> r.Threw? && unchanged(this)
    {
      hide Valid;
      hide Usage;
      hide OnEarliest;
      if account.None? {
        return Threw;
      }
      var user := account.value;
      Await({user});
      var locked := TakeLocks(user, id, isPrivate, installation);
      if !locked {
        r := Replay(user, id, isPrivate, installation);
        return;
      }
      Await({user});
      CountMonth(user, month, tier);
      Await({user});
      r := Decide(user, id);
    }

    /** Another reservation transaction holds the account or the job. */
    predicate Held(user: UserId, id: JobId)
      reads this`pending
    {
      user in pending || exists u :: u in pending && pending[u].job == id
    }

    /** The review is one of this account and installation, and still to be done. */
    predicate Available(user: UserId, id: JobId, installation: Option<nat>)
      reads this`jobs, this`repos
    {
      && id in jobs && jobs[id].repo in repos && repos[jobs[id].repo].owner == user && repos[jobs[id].repo].active
      && repos[jobs[id].repo].installation == installation
      && jobs[id].status !in {COMPLETED, Status.FAILED, SKIPPED, CANCELLED, TIMEOUT}
    }

    /** The locks and the state check of a fresh reservation. */
    method TakeLocks(user: UserId, id: JobId, isPrivate: bool, installation: Option<nat>) returns (locked: bool)
      requires Valid()
      modifies this`pending, this`history, this`own
      ensures Valid() && old(history) <= history
      ensures locked ==> user in pending && pending[user] == Checked(id, isPrivate) && |own| == |old(own)| + 1
      ensures locked ==> old(own) <= own && own[|old(own)|].ReserveCheck?
      ensures !locked ==> unchanged(this)
      ensures locked <==> old(!Held(user, id) && Available(user, id, installation) && jobs[id].receipt.None?)
    {
      hide Legal;
      hide After;
      hide Initial;
      if user in pending || (exists u :: u in pending && pending[u].job == id) || id !in jobs || jobs[id].repo !in repos {
        return false;
      }
      var repo := repos[jobs[id].repo];
      if repo.owner != user || !repo.active || repo.installation != installation || !IsInProgress(jobs[id].status) ||
         jobs[id].receipt.Some? {
        return false;
      }
      ghost var before := View();
      pending := pending[user := Checked(id, isPrivate)];
      LogOwn(before, ReserveCheck(user, id, isPrivate, installation));
      return true;
    }

    /** A job that already holds its charge is answered without another one. */
    method Replay(user: UserId, id: JobId, isPrivate: bool, installation: Option<nat>) returns (r: Reserved)
      requires Valid()
      ensures r.AlreadyCharged? <==>
                Available(user, id, installation) && jobs[id].receipt.Some? && !jobs[id].refunded &&
                jobs[id].receipt.value.isPrivate == isPrivate
      ensures r.AlreadyCharged? || r.Threw?
      ensures r.AlreadyCharged? ==>
                jobs[id].receipt.value.ledger < |ledgers| &&
                r.current == Usage(ledgers, user, ledgers[jobs[id].receipt.value.ledger].month, isPrivate)
      ensures r.AlreadyCharged? ==>
                id in jobs && jobs[id].receipt.Some? && !jobs[id].refunded && jobs[id].receipt.value.isPrivate == isPrivate
    {
      if id !in jobs || jobs[id].repo !in repos || jobs[id].receipt.None? {
        return Threw;
      }
      var repo := repos[jobs[id].repo];
      if repo.owner != user || !repo.active || repo.installation != installation || !IsInProgress(jobs[id].status) ||
         jobs[id].refunded || jobs[id].receipt.value.isPrivate != isPrivate {
        return Threw;
      }
      ValidIsSafe();
      assert JobOk(View(), jobs[id]);
      var ledger := ledgers[jobs[id].receipt.value.ledger];
      return AlreadyCharged(Usage(ledgers, user, ledger.month, isPrivate));
    }

    /** Read the month, the tier and the usage. */
    method CountMonth(user: UserId, month: Month, tier: Tier)
      requires Valid() && user in pending && pending[user].Checked?
      modifies this`pending, this`history, this`own
      ensures Valid() && old(history) <= history && old(own) <= own && |own| == |old(own)| + 1
      ensures own[|old(own)|].ReserveCount?
      ensures old(pending[user].job) in jobs
      ensures user in pending &&
                pending[user] == Counted(old(pending[user].job), old(pending[user].isPrivate), month, tier,
                                         Usage(ledgers, user, month, old(pending[user].isPrivate)),
                                         OnEarliest(repos, user, jobs[old(pending[user].job)].repo))
    {
      hide Legal;
      hide After;
      hide Initial;
      ValidIsSafe();
      assert ReservationOk(View(), user, pending[user]);
      ghost var before := View();
      var r := pending[user];
      var current := Usage(ledgers, user, month, r.isPrivate);
      var earliest := OnEarliest(repos, user, jobs[r.job].repo);
      pending := pending[user := Counted(r.job, r.isPrivate, month, tier, current, earliest)];
      LogOwn(before, ReserveCount(user, month, tier));
    }

    /** Deny, or upsert the ledger, increment it and write the receipt. */
    method Decide(user: UserId, id: JobId) returns (r: Reserved)
      requires Valid() && user in pending && pending[user].Counted? && pending[user].job == id
      modifies this`jobs, this`ledgers, this`pending, this`base, this`history, this`own
      ensures Valid() && old(history) <= history && old(own) <= own && |own| == |old(own)| + 1
      ensures r.ChargedNow? || r.Denied?
      ensures r == Denied(true) <==>
                old(pending[user].isPrivate && pending[user].tier == FREE && !pending[user].earliest)
      ensures r == Denied(false) <==>
                old(pending[user].isPrivate && pending[user].tier == FREE && pending[user].earliest && pending[user].current >= 50)
      ensures r.ChargedNow? <==> own[|old(own)|].ReserveCharge?
      ensures r.Denied? ==> old(pending[user].isPrivate)
      ensures r.ChargedNow? ==>
                && id in jobs && jobs[id].receipt.Some? && !jobs[id].refunded
                && jobs[id].status !in {COMPLETED, Status.FAILED, SKIPPED, CANCELLED, TIMEOUT}
                && jobs[id].receipt.value.isPrivate == old(pending[user].isPrivate)
                && jobs[id].receipt.value.ledger < |ledgers|
                && (var ledger := ledgers[jobs[id].receipt.value.ledger];
                    ledger.owner == user && ledger.month == old(pending[user].month) && !ledger.legacy)
                && r.current == old(pending[user].current) + 1
    {
      ValidIsSafe();
      var c := pending[user];
      assert ReservationOk(View(), user, c);
      if Limited(c.isPrivate, c.tier) {
        if !c.earliest {
          EndReservation(user);
          return Denied(true);
        }
        if c.current >= FREE_TIER_PRIVATE_LIMIT {
          EndReservation(user);
          return Denied(false);
        }
      }
      assert JobOk(View(), jobs[id]);
      ChargeJob(user);
      return ChargedNow(c.current + 1);
    }

    method EndReservation(user: UserId)
      requires Valid() && user in pending
      modifies this`pending, this`history, this`own
      ensures Valid() && Did(ReserveEnd(user))
    {
      hide Legal;
      hide After;
      hide Initial;
      ghost var before := View();
      pending := pending - {user};
      LogOwn(before, ReserveEnd(user));
    }

    method ChargeJob(user: UserId)
      requires Valid() && user in pending && pending[user].Counted? && Allowed(pending[user]) && pending[user].job in jobs
      modifies this`jobs, this`ledgers, this`pending, this`base, this`history, this`own
      ensures Valid()
      ensures exists now :: Did(ReserveCharge(user, now))
    {
      hide Legal;
      hide After;
      hide Initial;
      var now: int := *;
      ghost var before := View();
      var c := pending[user];
      var at := LedgerFor(ledgers, user, c.month);
      if at == |ledgers| {
        ledgers := ledgers + [Ledger(user, false, c.month, 0, 0)];
        base := base + [ledgers[at]];
      }
      if c.isPrivate {
        ledgers := ledgers[at := ledgers[at].(privateCount := ledgers[at].privateCount + 1)];
      } else {
        ledgers := ledgers[at := ledgers[at].(publicCount := ledgers[at].publicCount + 1)];
      }
      jobs := jobs[c.job := jobs[c.job].(receipt := Some(Receipt(at, c.isPrivate)), updatedAt := now)];
      pending := pending - {user};
      LogOwn(before, ReserveCharge(user, now));
      assert Did(ReserveCharge(user, now));
    }

    // ---- persistState and refundReviewQuota --------------------------------------------------

    /** The counter a charge is on, one lower, and nothing else. */
    function Lowered(table: seq<Ledger>, r: Receipt): seq<Ledger>
      requires r.ledger < |table|
    {
      if r.isPrivate then table[r.ledger := table[r.ledger].(privateCount := table[r.ledger].privateCount - 1)]
      else table[r.ledger := table[r.ledger].(publicCount := table[r.ledger].publicCount - 1)]
    }

    /**
     * Write a terminal status or RETRYING under the job lock, unless the job is terminal or
     * has moved on. A review that did not complete gives its charge back in the same step.
     */
    method PersistState(id: JobId, status: Status, expected: Option<(Status, int)>) returns (changed: bool)
      requires Valid() && status in {COMPLETED, Status.FAILED, SKIPPED, CANCELLED, TIMEOUT, RETRYING}
      modifies this`jobs, this`ledgers, this`history, this`own
      ensures Valid()
      ensures changed <==>
                old(id in jobs && jobs[id].status !in {COMPLETED, Status.FAILED, SKIPPED, CANCELLED, TIMEOUT} &&
                    (expected.Some? ==> jobs[id].status == expected.value.0 && jobs[id].updatedAt == expected.value.1) &&
                    forall u :: u in pending ==> pending[u].job != id)
      ensures !changed ==> unchanged(this)
      ensures changed ==> exists now :: Did(Persist(id, status, expected, now))
      ensures changed ==>
                id in jobs && jobs == old(jobs)[id := jobs[id]] && jobs[id].status == status &&
                jobs[id].receipt == old(jobs)[id].receipt && jobs[id].hasPlan == old(jobs)[id].hasPlan
      ensures changed && status in {Status.FAILED, SKIPPED, CANCELLED, TIMEOUT} && old(jobs)[id].receipt.Some? && !old(jobs)[id].refunded ==>
                jobs[id].refunded && old(jobs)[id].receipt.value.ledger < |old(ledgers)| &&
                ledgers == Lowered(old(ledgers), old(jobs)[id].receipt.value)
      ensures changed && (status in {COMPLETED, RETRYING} || old(jobs)[id].receipt.None? || old(jobs)[id].refunded) ==>
                ledgers == old(ledgers) && jobs[id].refunded == old(jobs)[id].refunded
    {
      if (exists u :: u in pending && pending[u].job == id) || id !in jobs || IsTerminal(jobs[id].status) {
        return false;
      }
      if expected.Some? && (jobs[id].status != expected.value.0 || jobs[id].updatedAt != expected.value.1) {
        return false;
      }
      ghost var before := View();
      assert Enabled(before, Persist(id, status, expected, 0));
      ValidIsSafe();
      var now := WriteState(id, status, expected);
      StatusWritten(before, id, status, expected, now);
      return true;
    }

    method WriteState(id: JobId, status: Status, expected: Option<(Status, int)>) returns (now: int)
      requires Valid() && Enabled(View(), Persist(id, status, expected, 0))
      modifies this`jobs, this`ledgers, this`history, this`own
      ensures Valid() && Did(Persist(id, status, expected, now))
    {
      hide Legal;
      hide After;
      hide Initial;
      now := *;
      ghost var before := View();
      var row := jobs[id];
      jobs := jobs[id := row.(status := status, updatedAt := now)];
      if !status.COMPLETED? && !status.RETRYING? {
        RefundQuota(id, row);
      }
      LogOwn(before, Persist(id, status, expected, now));
    }

    lemma StatusWritten(w: World, id: JobId, status: Status, expected: Option<(Status, int)>, now: int)
      requires Inv(w) && Enabled(w, Persist(id, status, expected, now))
      ensures var w', row := Next(w, Persist(id, status, expected, now)), w.jobs[id];
              && id in w'.jobs && w'.jobs == w.jobs[id := w'.jobs[id]] && w'.jobs[id].status == status
              && w'.jobs[id].receipt == row.receipt && w'.jobs[id].hasPlan == row.hasPlan
              && (status in {Status.FAILED, SKIPPED, CANCELLED, TIMEOUT} && row.receipt.Some? && !row.refunded ==>
                    w'.jobs[id].refunded && row.receipt.value.ledger < |w.ledgers| && w'.ledgers == Lowered(w.ledgers, row.receipt.value))
              && (status in {COMPLETED, RETRYING} || row.receipt.None? || row.refunded ==>
                    w'.ledgers == w.ledgers && w'.jobs[id].refunded == row.refunded)
    {
      hide Inv;
      var row := w.jobs[id];
      if row.receipt.Some? && !row.refunded {
        RefundIsDue(w, id);
      }
    }

    /** The marker first, then the decrement; both commit with the caller's transaction. */
    method RefundQuota(id: JobId, row: Job)
      requires id in jobs && jobs[id].receipt == row.receipt && jobs[id].refunded == row.refunded
      modifies this`jobs, this`ledgers
      ensures jobs == old(jobs)[id := RefundJob(old(jobs[id]))]
      ensures ledgers == RefundLedgers(old(ledgers), row)
    {
      if row.receipt.None? || row.refunded {
        return;
      }
      jobs := jobs[id := jobs[id].(refunded := true)];
      var at := row.receipt.value.ledger;
      if at < |ledgers| {
        if row.receipt.value.isPrivate {
          if ledgers[at].privateCount > 0 {
            ledgers := ledgers[at := ledgers[at].(privateCount := ledgers[at].privateCount - 1)];
          }
        } else if ledgers[at].publicCount > 0 {
          ledgers := ledgers[at := ledgers[at].(publicCount := ledgers[at].publicCount - 1)];
        }
      }
    }

    // ---- advanceReview ------------------------------------------------------------------------

    /** Read the status, then compare-and-set it: a review is never moved back or revived. */
    method AdvanceReview(id: JobId, phase: Phase) returns (changed: bool)
      requires Valid()
      modifies this`repos, this`jobs, this`used, this`ledgers, this`pending, this`base, this`history, this`own
      ensures Valid() && old(history) <= history && old(own) <= own
      ensures changed ==> id in jobs && jobs[id].status == In(phase) && |own| == |old(own)| + 1 && own[|old(own)|].Advance?
      ensures changed ==>
                var observed := own[|old(own)|].observed;
                || observed in {QUEUED, RUNNING, RETRYING}
                || (observed == In(FETCHING) && phase in {ANALYZING, GENERATING, POSTING})
                || (observed == In(ANALYZING) && phase in {GENERATING, POSTING})
                || (observed == In(GENERATING) && phase == POSTING)
      ensures !changed ==> own == old(own)
      ensures !changed ==>
                id !in old(jobs) || !MayAdvance(old(jobs)[id].status, phase) || id !in jobs ||
                jobs[id].status != old(jobs)[id].status || exists u :: u in pending && pending[u].job == id
    {
      hide Legal;
      hide After;
      hide Initial;
      if id !in jobs {
        return false;
      }
      var current := jobs[id].status;
      if current.In? {
        if PhaseRank(phase) <= PhaseRank(current.phase) {
          return false;
        }
      } else if IsTerminal(current) {
        return false;
      }
      Await({});
      if id !in jobs || jobs[id].status != current || (exists u :: u in pending && pending[u].job == id) {
        return false;
      }
      var now: int := *;
      ghost var before := View();
      jobs := jobs[id := jobs[id].(status := In(phase), updatedAt := now)];
      LogOwn(before, Advance(id, phase, current, now));
      return true;
    }

    // ---- sweepFailedJobsOnce --------------------------------------------------------------------

    /** Delete old failed jobs without a delivery plan, batch by batch, and nothing else. */
    method SweepFailedJobs(retentionDays: int, cutoff: int, batch: nat) returns (total: nat)
      requires Valid() && batch > 0
      modifies this`jobs, this`history, this`own
      ensures Valid() && old(history) <= history
      ensures retentionDays <= 0 ==> unchanged(this) && total == 0
      ensures retentionDays > 0 ==>
                forall id :: id in jobs ==> !(jobs[id].status == Status.FAILED && jobs[id].updatedAt < cutoff && !jobs[id].hasPlan)
      ensures forall id :: id in jobs ==> id in old(jobs) && jobs[id] == old(jobs[id])
      ensures forall id :: id in old(jobs) && id !in jobs ==>
                old(jobs[id]).status == Status.FAILED && old(jobs[id]).updatedAt < cutoff && !old(jobs[id]).hasPlan
      ensures total == |old(jobs)| - |jobs|
    {
      hide Valid;
      total := 0;
      if retentionDays <= 0 {
        return;
      }
      while true
        invariant Valid() && old(history) <= history
        invariant forall id :: id in jobs ==> id in old(jobs) && jobs[id] == old(jobs[id])
        invariant forall id :: id in old(jobs) && id !in jobs ==> Expired(old(jobs[id]), cutoff)
        invariant total == |old(jobs)| - |jobs|
        decreases |jobs|
      {
        var stale := set id | id in jobs && Expired(jobs[id], cutoff);
        var some := UpTo(stale, batch);
        if some == {} {
          forall id | id in jobs
            ensures !Expired(jobs[id], cutoff)
          {
            assert id !in stale;
          }
          break;
        }
        ghost var listed := jobs;
        DeleteBatch(some, cutoff);
        total := total + |some|;
        if |some| < batch {
          SameSize(some, stale);
          forall id | id in jobs
            ensures !Expired(jobs[id], cutoff)
          {
            assert id in listed && id !in stale && jobs[id] == listed[id];
          }
          break;
        }
      }
    }

    method DeleteBatch(some: set<JobId>, cutoff: int)
      requires Valid() && some <= jobs.Keys && forall id :: id in some ==> Expired(jobs[id], cutoff)
      modifies this`jobs, this`history, this`own
      ensures Valid() && old(history) <= history && jobs == old(jobs) - some
      ensures |jobs| == |old(jobs)| - |some|
    {
      hide Legal;
      hide After;
      hide Initial;
      ghost var before := View();
      ValidIsSafe();
      forall id | id in some
        ensures Unlocked(before, id)
      {
        assert forall u :: u in before.pending ==> ReservationOk(before, u, before.pending[u]);
      }
      jobs := jobs - some;
      assert jobs.Keys == before.jobs.Keys - some;
      LogOwn(before, DeleteFailed(some, cutoff));
    }

    // ---- recoverReviewsOnce ------------------------------------------------------------------------

    /**
     * Settle the listed reviews; a row that has moved since it was listed is left alone.
     * queues and clock are what the queue and the clock say when a review is looked at. Every
     * listed review that is judged to stop is stopped, unless its row was seen to have moved.
     */
    method RecoverReviews(afterId: Option<JobId>, reviewTimeout: nat, queues: JobId -> QueueView, clock: JobId -> int)
      returns (checked: nat, changed: nat, cursor: Option<JobId>)
      requires Valid()
      modifies this`repos, this`jobs, this`used, this`ledgers, this`pending, this`base, this`history, this`own
      ensures Valid() && old(history) <= history && old(own) <= own
      ensures changed == StopsIn(own) - StopsIn(old(own)) <= checked <= 100
      ensures forall i :: |old(own)| <= i < |own| ==> IsRecoveryStep(own[i])
      ensures cursor.Some? <==> checked == 100
      ensures cursor.Some? ==> (afterId.Some? ==> cursor.value > afterId.value)
      ensures cursor.None? ==> checked == |old(set id | id in jobs && IsInProgress(jobs[id].status) && IsAfter(id, afterId))|
      ensures forall id :: id in Listed(old(jobs), afterId, cursor) ==>
                var row := old(jobs)[id];
                var v := Judge(row, IsActive(old(repos), row), QueueFailed(old(jobs), old(repos), afterId, queues, id), queues(id),
                               clock(id), AbandonedGrace(reviewTimeout));
                v.Stop? ==> Dealt(start, history, |old(history)|, own, |old(own)|, id, row, v.status)
    {
      hide Valid;
      hide Judge;
      hide Dealt;
      hide QueueFailed;
      hide DownBefore;
      var inProgress := set id | id in jobs && IsInProgress(jobs[id].status) && IsAfter(id, afterId);
      var page := FirstOf(inProgress, BATCH_SIZE);
      var rows := map id | id in jobs && id in page :: jobs[id];
      var actives := map id | id in jobs && id in page :: jobs[id].repo in repos && repos[jobs[id].repo].active;
      checked := |page|;
      if checked == BATCH_SIZE {
        assert page[BATCH_SIZE - 1] in page;
        cursor := Some(page[BATCH_SIZE - 1]);
      } else {
        cursor := None;
      }
      ghost var table, owners := jobs, repos;
      changed := RecoverPage(page, rows, actives, reviewTimeout, queues, clock);
      EveryListed(table, owners, afterId, cursor, page, rows, actives, AbandonedGrace(reviewTimeout), queues, clock,
                  |old(history)|, |old(own)|);
    }

    /** What holds of the rows of a page holds of every review listed. */
    lemma EveryListed(table: map<JobId, Job>, owners: map<RepoId, Repo>, afterId: Option<JobId>, cursor: Option<JobId>,
                      page: seq<JobId>, rows: map<JobId, Job>, actives: map<JobId, bool>, grace: nat,
                      queues: JobId -> QueueView, clock: JobId -> int, at: nat, o: nat)
      requires var ids := set id | id in table && IsInProgress(table[id].status) && IsAfter(id, afterId);
               && |page| == (if |ids| <= BATCH_SIZE then |ids| else BATCH_SIZE)
               && (forall i, j :: 0 <= i < j < |page| ==> page[i] < page[j])
               && (forall x :: x in page ==> x in ids)
               && (forall x, k :: x in ids && x !in page && 0 <= k < |page| ==> page[k] < x)
      requires cursor == if |page| == BATCH_SIZE then Some(page[BATCH_SIZE - 1]) else None
      requires forall id :: id in page ==> id in rows && id in actives
      requires forall id :: id in page ==> rows[id] == table[id] && actives[id] == IsActive(owners, table[id])
      requires forall k :: 0 <= k < |page| ==>
                 var v := Judge(rows[page[k]], actives[page[k]], DownBefore(page, actives, queues, k), queues(page[k]), clock(page[k]), grace);
                 v.Stop? ==> Dealt(start, history, at, own, o, page[k], rows[page[k]], v.status)
      ensures forall id :: id in Listed(table, afterId, cursor) ==>
                var v := Judge(table[id], IsActive(owners, table[id]), QueueFailed(table, owners, afterId, queues, id), queues(id),
                               clock(id), grace);
                v.Stop? ==> Dealt(start, history, at, own, o, id, table[id], v.status)
    {
      hide Judge;
      hide Dealt;
      hide IsActive;
      hide QueueFailed;
      hide DownBefore;
      forall id | id in Listed(table, afterId, cursor)
        ensures var v := Judge(table[id], IsActive(owners, table[id]), QueueFailed(table, owners, afterId, queues, id), queues(id),
                               clock(id), grace);
                v.Stop? ==> Dealt(start, history, at, own, o, id, table[id], v.status)
      {
        var ids := set i | i in table && IsInProgress(table[i].status) && IsAfter(i, afterId);
        PageHolds(ids, page, id, cursor);
        var k :| 0 <= k < |page| && page[k] == id;
        SameDown(table, owners, afterId, queues, page, actives, k);
      }
    }

    /** What was listed is on the page, up to the cursor. */
    lemma PageHolds(ids: set<JobId>, page: seq<JobId>, id: JobId, cursor: Option<JobId>)
      requires |page| == if |ids| <= BATCH_SIZE then |ids| else BATCH_SIZE
      requires forall i, j :: 0 <= i < j < |page| ==> page[i] < page[j]
      requires forall x :: x in page ==> x in ids
      requires forall x, k :: x in ids && x !in page && 0 <= k < |page| ==> page[k] < x
      requires id in ids && (cursor.Some? ==> |page| > 0 && cursor.value == page[|page| - 1] && id <= cursor.value)
      requires cursor.None? ==> |page| < BATCH_SIZE
      ensures id in page
    {
      if cursor.None? {
        var listed := set x | x in page;
        AsManyAs(page, listed);
        SameSize(listed, ids);
      }
    }

    lemma {:induction false} AsManyAs(page: seq<JobId>, listed: set<JobId>)
      requires forall i, j :: 0 <= i < j < |page| ==> page[i] < page[j]
      requires forall x :: x in listed <==> x in page
      ensures |listed| == |page|
      decreases |page|
    {
      if page == [] {
        assert listed == {};
      } else {
        var last := page[|page| - 1];
        assert forall x :: x in page[..|page| - 1] <==> x in page && x != last;
        AsManyAs(page[..|page| - 1], listed - {last});
      }
    }

    lemma SameDown(table: map<JobId, Job>, owners: map<RepoId, Repo>, afterId: Option<JobId>, queues: JobId -> QueueView,
                   page: seq<JobId>, actives: map<JobId, bool>, k: nat)
      requires k < |page| && forall i, j :: 0 <= i < j < |page| ==> page[i] < page[j]
      requires forall id :: id in page ==> id in table && id in actives && actives[id] == IsActive(owners, table[id])
      requires forall id :: id in page ==> IsInProgress(table[id].status) && IsAfter(id, afterId)
      requires forall id, j :: id in table && IsInProgress(table[id].status) && IsAfter(id, afterId) && id !in page && 0 <= j < |page| ==>
                 page[j] < id
      ensures DownBefore(page, actives, queues, k) == QueueFailed(table, owners, afterId, queues, page[k])
    {
      if QueueFailed(table, owners, afterId, queues, page[k]) {
        var id :| id in table && IsInProgress(table[id].status) && IsAfter(id, afterId) && id < page[k] &&
                  IsActive(owners, table[id]) && queues(id) == Unavailable;
        var j :| 0 <= j < |page| && page[j] == id;
        assert j < k;
      }
      if DownBefore(page, actives, queues, k) {
        var j :| 0 <= j < k && actives[page[j]] && queues(page[j]) == Unavailable;
        assert page[j] in page && page[j] < page[k];
      }
    }

    /** The loop over one page, with the rows as they were listed. */
    method RecoverPage(page: seq<JobId>, rows: map<JobId, Job>, actives: map<JobId, bool>, reviewTimeout: nat,
                       queues: JobId -> QueueView, clock: JobId -> int)
      returns (changed: nat)
      requires Valid() && forall id :: id in page ==> id in rows && id in actives
      requires forall id :: id in page ==> rows[id].status !in {COMPLETED, Status.FAILED, SKIPPED, CANCELLED, TIMEOUT}
      modifies this`repos, this`jobs, this`used, this`ledgers, this`pending, this`base, this`history, this`own
      ensures Valid() && old(history) <= history && old(own) <= own
      ensures changed == StopsIn(own) - StopsIn(old(own)) <= |page|
      ensures forall i :: |old(own)| <= i < |own| ==> IsRecoveryStep(own[i])
      ensures forall k :: 0 <= k < |page| ==>
                var v := Judge(rows[page[k]], actives[page[k]], DownBefore(page, actives, queues, k), queues(page[k]),
                               clock(page[k]), AbandonedGrace(reviewTimeout));
                v.Stop? ==> Dealt(start, history, |old(history)|, own, |old(own)|, page[k], rows[page[k]], v.status)
    {
      hide Valid;
      hide Judge;
      hide Dealt;
      hide AbandonedGrace;
      changed := 0;
      var queueDown := false;
      for k := 0 to |page|
        invariant Valid() && old(history) <= history && old(own) <= own
        invariant changed == StopsIn(own) - StopsIn(old(own)) <= k
        invariant forall i :: |old(own)| <= i < |own| ==> IsRecoveryStep(own[i])
        invariant queueDown == DownBefore(page, actives, queues, k)
        invariant forall j :: 0 <= j < k ==>
                    var v := Judge(rows[page[j]], actives[page[j]], DownBefore(page, actives, queues, j), queues(page[j]),
                                   clock(page[j]), AbandonedGrace(reviewTimeout));
                    v.Stop? ==> Dealt(start, history, |old(history)|, own, |old(own)|, page[j], rows[page[j]], v.status)
      {
        ghost var history', own' := history, own;
        Await({});
        var id := page[k];
        var verdict := Judge(rows[id], actives[id], queueDown, queues(id), clock(id), AbandonedGrace(reviewTimeout));
        Judgement(rows[id], actives[id], queueDown, queues(id), clock(id), AbandonedGrace(reviewTimeout));
        var stopped := Settle(id, rows[id], verdict, |old(history)|, |old(own)|);
        StillDealt(start, history', |old(history)|, own', |old(own)|, history, own);
        queueDown := queueDown || verdict.QueueDown?;
        changed := changed + if stopped then 1 else 0;
      }
    }

    /** What a verdict does to the table. */
    method Settle(id: JobId, row: Job, verdict: Verdict, ghost at: nat, ghost o: nat) returns (stopped: bool)
      requires Valid() && (verdict.Stop? ==> verdict.status in {CANCELLED, Status.FAILED, TIMEOUT})
      requires at <= |history| && o <= |own| && row.status !in {COMPLETED, Status.FAILED, SKIPPED, CANCELLED, TIMEOUT}
      modifies this`jobs, this`ledgers, this`history, this`own
      ensures Valid() && old(history) <= history && old(own) <= own && |own| <= |old(own)| + 1
      ensures stopped ==> verdict.Stop? && |own| == |old(own)| + 1 && own[|old(own)|].Persist?
      ensures StopsIn(own) == StopsIn(old(own)) + if stopped then 1 else 0
      ensures forall i :: |old(own)| <= i < |own| ==> IsRecoveryStep(own[i])
      ensures old(id !in jobs || jobs[id].status != row.status || jobs[id].updatedAt != row.updatedAt) ==> unchanged(this)
      ensures verdict.Stop? ==> Dealt(start, history, at, own, o, id, row, verdict.status)
    {
      stopped := false;
      match verdict {
        case Stop(status) =>
          stopped := PersistState(id, status, Some((row.status, row.updatedAt)));
          if stopped {
            assert own[..|own| - 1] == old(own);
            assert own[|old(own)|].id == id && own[|old(own)|].status == status;
            assert StoppedIn(own, o, id, row, status);
          } else {
            if id in jobs && jobs[id].status == row.status && jobs[id].updatedAt == row.updatedAt {
              var u :| u in pending && pending[u].job == id;
              assert u in View().pending;
            }
            assert Legal(start, history) && MovedOn(After(start, history), id, row);
          }
        case Adopt =>
          var known: bool := *;
          if !known && id in jobs && jobs[id].status == row.status && jobs[id].updatedAt == row.updatedAt &&
             !(exists u :: u in pending && pending[u].job == id) {
            var now: int := *;
            ghost var before := View();
            jobs := jobs[id := jobs[id].(updatedAt := now)];
            LogOwn(before, Touch(id, now));
            assert own[..|own| - 1] == old(own);
          }
        case Leave =>
        case QueueDown =>
      }
    }
  }

  predicate IsAfter(id: JobId, afterId: Option<JobId>) {
    afterId.Some? ==> id > afterId.value
  }

  predicate IsActive(repos: map<RepoId, Repo>, row: Job) {
    row.repo in repos && repos[row.repo].active
  }

  /** The reviews a pass looks at: in progress, after the old cursor, and up to the new one. */
  function Listed(table: map<JobId, Job>, afterId: Option<JobId>, cursor: Option<JobId>): set<JobId> {
    set id | id in table && table[id].status !in {COMPLETED, Status.FAILED, SKIPPED, CANCELLED, TIMEOUT} &&
             IsAfter(id, afterId) && (cursor.Some? ==> id <= cursor.value)
  }

  /** The queue could not be read for a review looked at earlier in the pass. */
  predicate QueueFailed(table: map<JobId, Job>, repos: map<RepoId, Repo>, afterId: Option<JobId>, queues: JobId -> QueueView,
                        id: JobId) {
    exists i :: i in table && IsInProgress(table[i].status) && IsAfter(i, afterId) && i < id && IsActive(repos, table[i]) &&
                queues(i) == Unavailable
  }

  predicate DownBefore(page: seq<JobId>, actives: map<JobId, bool>, queues: JobId -> QueueView, k: nat)
    requires k <= |page| && forall id :: id in page ==> id in actives
  {
    exists j :: 0 <= j < k && actives[page[j]] && queues(page[j]) == Unavailable
  }
}
