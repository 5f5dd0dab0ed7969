/**
 * Over every interleaving of reservations, refunds, recoveries and deletions: the ledger
 * agrees with the receipts, a charge is given back exactly when a review did not complete,
 * and the free tier is never exceeded.
 */
module ReviewTheorems {
  import opened Basics
  import opened ReviewProtocol

  type Jobs = map<JobId, Job>

  /** The jobs holding an unrefunded charge on this counter of this ledger. */
  function Charged(jobs: Jobs, ledger: LedgerId, isPrivate: bool): set<JobId> {
    set id | id in jobs && jobs[id].receipt == Some(Receipt(ledger, isPrivate)) && !jobs[id].refunded
  }

  // ---- the invariant -------------------------------------------------------------------

  ghost predicate Balanced(w: World) {
    && |w.base| == |w.ledgers|
    && forall l, p :: 0 <= l < |w.ledgers| ==>
         CountOf(w.base[l], p) >= 0 && CountOf(w.ledgers[l], p) == CountOf(w.base[l], p) + |Charged(w.jobs, l, p)|
  }

  ghost predicate JobOk(w: World, job: Job) {
    && (job.receipt.Some? ==> job.receipt.value.ledger < |w.ledgers|)
    && (job.receipt.None? ==> !job.refunded)
    && (job.receipt.Some? ==> (job.refunded <==> GivesBack(job.status)))
  }

  ghost predicate ReservationOk(w: World, user: UserId, r: Reservation) {
    && r.job in w.jobs && w.jobs[r.job].receipt.None? && IsInProgress(w.jobs[r.job].status)
    && (r.Counted? ==> r.current >= Usage(w.ledgers, user, r.month, r.isPrivate))
  }

  ghost predicate Inv(w: World) {
    && Balanced(w)
    && (forall id :: id in w.jobs ==> id in w.used && JobOk(w, w.jobs[id]))
    && (forall u :: u in w.pending ==> ReservationOk(w, u, w.pending[u]))
    && (forall u, v :: u in w.pending && v in w.pending && w.pending[u].job == w.pending[v].job ==> u == v)
    && UniqueLedgers(w.ledgers)
  }

  lemma InitialInv(w: World)
    requires Initial(w)
    ensures Inv(w)
  {
  }

  // ---- usage sums --------------------------------------------------------------------------

  /** Changing one entry of a ledger table changes the sum by that entry's share. */
  lemma {:induction false} UsageOfUpdate(ledgers: seq<Ledger>, at: nat, l: Ledger, user: UserId, month: Month, p: bool)
    requires at < |ledgers| && l.owner == ledgers[at].owner && l.month == ledgers[at].month
    ensures Usage(ledgers[at := l], user, month, p) ==
            Usage(ledgers, user, month, p) +
            if l.owner == user && l.month == month then CountOf(l, p) - CountOf(ledgers[at], p) else 0
    decreases |ledgers|
  {
    var n := |ledgers| - 1;
    if at == n {
      assert ledgers[at := l][..n] == ledgers[..n];
    } else {
      UsageOfUpdate(ledgers[..n], at, l, user, month, p);
      assert ledgers[at := l][..n] == ledgers[..n][at := l];
    }
  }

  ghost predicate NonNegative(ledgers: seq<Ledger>) {
    forall l :: l in ledgers ==> l.publicCount >= 0 && l.privateCount >= 0
  }

  /** No single ledger of the account and month exceeds the sum. */
  lemma {:induction false} UsageCovers(ledgers: seq<Ledger>, at: nat, user: UserId, month: Month, p: bool)
    requires NonNegative(ledgers)
    ensures Usage(ledgers, user, month, p) >= 0
    ensures at < |ledgers| && ledgers[at].owner == user && ledgers[at].month == month ==>
              CountOf(ledgers[at], p) <= Usage(ledgers, user, month, p)
    decreases |ledgers|
  {
    if ledgers != [] {
      var n := |ledgers| - 1;
      assert ledgers[n] in ledgers;
      assert NonNegative(ledgers[..n]);
      UsageCovers(ledgers[..n], at, user, month, p);
    }
  }

  lemma BalancedIsNonNegative(w: World)
    requires Balanced(w)
    ensures NonNegative(w.ledgers)
  {
    forall l | l in w.ledgers
      ensures l.publicCount >= 0 && l.privateCount >= 0
    {
      var i :| 0 <= i < |w.ledgers| && w.ledgers[i] == l;
      assert CountOf(w.base[i], true) >= 0 && CountOf(w.base[i], false) >= 0;
      assert CountOf(w.ledgers[i], true) >= 0 && CountOf(w.ledgers[i], false) >= 0;
    }
  }

  // ---- one step ------------------------------------------------------------------------------

  /** A job change that keeps its receipt keeps every set of charges. */
  lemma SameCharges(jobs: Jobs, id: JobId, job: Job)
    requires id in jobs && job.receipt == jobs[id].receipt && job.refunded == jobs[id].refunded
    ensures forall l, p :: Charged(jobs[id := job], l, p) == Charged(jobs, l, p)
  {
  }

  predicate TouchesOneJob(e: Event) {
    e.SkipUncharged? || e.Complete? || e.Advance? || e.StartPosting? || e.Touch? ||
    (e.Persist? && !GivesBack(e.status))
  }

  lemma JobStep(w: World, e: Event)
    requires Inv(w) && Enabled(w, e) && TouchesOneJob(e)
    ensures Inv(Next(w, e))
  {
    var w' := Next(w, e);
    assert JobOk(w, w.jobs[e.id]);
    SameCharges(w.jobs, e.id, w'.jobs[e.id]);
    assert w'.jobs == w.jobs[e.id := w'.jobs[e.id]];
    forall u | u in w'.pending
      ensures ReservationOk(w', u, w'.pending[u])
    {
      assert ReservationOk(w, u, w.pending[u]);
    }
  }

  lemma CreateStep(w: World, e: Event)
    requires Inv(w) && Enabled(w, e) && e.CreateJob?
    ensures Inv(Next(w, e))
  {
    var w' := Next(w, e);
    forall l, p
      ensures Charged(w'.jobs, l, p) == Charged(w.jobs, l, p)
    {
    }
    forall u | u in w'.pending
      ensures ReservationOk(w', u, w'.pending[u])
    {
      assert ReservationOk(w, u, w.pending[u]);
    }
  }

  /** A due refund always finds its counter above zero, and takes back exactly its own charge. */
  lemma RefundIsDue(w: World, id: JobId)
    requires Inv(w) && id in w.jobs && w.jobs[id].receipt.Some? && !w.jobs[id].refunded
    ensures var r := w.jobs[id].receipt.value;
            r.ledger < |w.ledgers| && CountOf(w.ledgers[r.ledger], r.isPrivate) > 0 &&
            (r.isPrivate ==> w.ledgers[r.ledger].privateCount > 0) && (!r.isPrivate ==> w.ledgers[r.ledger].publicCount > 0) &&
            RefundLedgers(w.ledgers, w.jobs[id]) ==
              w.ledgers[r.ledger := Bump(w.ledgers[r.ledger], r.isPrivate, -1)]
  {
    var r := w.jobs[id].receipt.value;
    assert JobOk(w, w.jobs[id]);
    assert id in Charged(w.jobs, r.ledger, r.isPrivate);
    assert CountOf(w.ledgers[r.ledger], r.isPrivate) ==
           CountOf(w.base[r.ledger], r.isPrivate) + |Charged(w.jobs, r.ledger, r.isPrivate)|;
  }

  lemma RefundCharges(jobs: Jobs, id: JobId, job: Job, r: Receipt)
    requires id in jobs && jobs[id].receipt == Some(r) && !jobs[id].refunded
    requires job.receipt == Some(r) && job.refunded
    ensures forall l, p :: Charged(jobs[id := job], l, p) ==
                           if r == Receipt(l, p) then Charged(jobs, l, p) - {id} else Charged(jobs, l, p)
    ensures id in Charged(jobs, r.ledger, r.isPrivate)
  {
  }

  lemma StopStep(w: World, e: Event)
    requires Inv(w) && Enabled(w, e) && e.Persist? && GivesBack(e.status)
    ensures Inv(Next(w, e))
  {
    var w' := Next(w, e);
    var job := w.jobs[e.id];
    assert JobOk(w, job);
    if job.receipt.None? {
      SameCharges(w.jobs, e.id, w'.jobs[e.id]);
      assert w'.ledgers == w.ledgers;
    } else {
      var r := job.receipt.value;
      RefundIsDue(w, e.id);
      RefundCharges(w.jobs, e.id, w'.jobs[e.id], r);
      RefundBalanced(w, w', e.id, r);
    }
    StopKeepsReservations(w, e);
    StopKeepsJobs(w, e);
  }

  lemma StopKeepsReservations(w: World, e: Event)
    requires Inv(w) && Enabled(w, e) && e.Persist? && GivesBack(e.status)
    ensures forall u :: u in Next(w, e).pending ==> ReservationOk(Next(w, e), u, Next(w, e).pending[u])
  {
    var w' := Next(w, e);
    var job := w.jobs[e.id];
    assert JobOk(w, job);
    forall u | u in w'.pending
      ensures ReservationOk(w', u, w'.pending[u])
    {
      assert ReservationOk(w, u, w.pending[u]);
      if job.receipt.Some? && w.pending[u].Counted? {
        var c := w.pending[u];
        var r := job.receipt.value;
        UsageOfUpdate(w.ledgers, r.ledger, w'.ledgers[r.ledger], u, c.month, c.isPrivate);
      }
    }
  }

  lemma StopKeepsJobs(w: World, e: Event)
    requires Inv(w) && Enabled(w, e) && e.Persist? && GivesBack(e.status)
    ensures forall id :: id in Next(w, e).jobs ==> id in Next(w, e).used && JobOk(Next(w, e), Next(w, e).jobs[id])
  {
    hide Usage;
    var w' := Next(w, e);
    forall id | id in w'.jobs
      ensures id in w'.used && JobOk(w', w'.jobs[id])
    {
      assert JobOk(w, w.jobs[id]);
    }
  }

  lemma RefundBalanced(w: World, w': World, id: JobId, r: Receipt)
    requires Balanced(w) && w'.base == w.base && r.ledger < |w.ledgers|
    requires w'.ledgers == w.ledgers[r.ledger := Bump(w.ledgers[r.ledger], r.isPrivate, -1)]
    requires id in Charged(w.jobs, r.ledger, r.isPrivate)
    requires forall l, p :: Charged(w'.jobs, l, p) ==
                            if r == Receipt(l, p) then Charged(w.jobs, l, p) - {id} else Charged(w.jobs, l, p)
    ensures Balanced(w')
  {
  }

  lemma ChargeCharges(jobs: Jobs, id: JobId, job: Job, r: Receipt)
    requires id in jobs && jobs[id].receipt.None? && job.receipt == Some(r) && !job.refunded
    ensures forall l, p :: Charged(jobs[id := job], l, p) ==
                           if r == Receipt(l, p) then Charged(jobs, l, p) + {id} else Charged(jobs, l, p)
    ensures id !in Charged(jobs, r.ledger, r.isPrivate)
  {
  }

  lemma NoReceiptsBeyond(w: World, l: LedgerId, p: bool)
    requires Inv(w) && l >= |w.ledgers|
    ensures Charged(w.jobs, l, p) == {}
  {
  }

  lemma ChargeBalanced(w: World, e: Event)
    requires Inv(w) && Enabled(w, e) && e.ReserveCharge?
    ensures Balanced(Next(w, e))
  {
    var w' := Next(w, e);
    var r := w.pending[e.user];
    assert ReservationOk(w, e.user, r) && JobOk(w, w.jobs[r.job]);
    var at := LedgerFor(w.ledgers, e.user, r.month);
    ChargeCharges(w.jobs, r.job, w'.jobs[r.job], Receipt(at, r.isPrivate));
    assert w'.jobs == w.jobs[r.job := w'.jobs[r.job]];
    forall l, p | 0 <= l < |w'.ledgers|
      ensures CountOf(w'.base[l], p) >= 0 && CountOf(w'.ledgers[l], p) == CountOf(w'.base[l], p) + |Charged(w'.jobs, l, p)|
    {
      if l < |w.ledgers| {
        assert CountOf(w.base[l], p) >= 0 && CountOf(w.ledgers[l], p) == CountOf(w.base[l], p) + |Charged(w.jobs, l, p)|;
      } else {
        NoReceiptsBeyond(w, l, p);
      }
    }
  }

  lemma ChargeStep(w: World, e: Event)
    requires Inv(w) && Enabled(w, e) && e.ReserveCharge?
    ensures Inv(Next(w, e))
  {
    var w' := Next(w, e);
    var r := w.pending[e.user];
    assert ReservationOk(w, e.user, r);
    ChargeBalanced(w, e);
    var at := LedgerFor(w.ledgers, e.user, r.month);
    forall id | id in w'.jobs
      ensures id in w'.used && JobOk(w', w'.jobs[id])
    {
      assert JobOk(w, w.jobs[id]);
    }
    forall u | u in w'.pending
      ensures ReservationOk(w', u, w'.pending[u])
    {
      assert u != e.user && ReservationOk(w, u, w.pending[u]) && w.pending[u].job != r.job;
      if w.pending[u].Counted? {
        OtherAccountsUsage(w, e, u, w.pending[u].month, w.pending[u].isPrivate);
      }
    }
  }

  /** Charging one account leaves the usage of every other account alone. */
  lemma OtherAccountsUsage(w: World, e: Event, u: UserId, month: Month, p: bool)
    requires Enabled(w, e) && e.ReserveCharge? && u != e.user
    ensures Usage(Next(w, e).ledgers, u, month, p) == Usage(w.ledgers, u, month, p)
  {
    var r := w.pending[e.user];
    var at := LedgerFor(w.ledgers, e.user, r.month);
    var table := Upserted(w.ledgers, e.user, r.month);
    UsageOfUpdate(table, at, Bump(table[at], r.isPrivate, 1), u, month, p);
    if at == |w.ledgers| {
      assert table[..|table| - 1] == w.ledgers;
    }
  }

  lemma DeleteStep(w: World, e: Event)
    requires Inv(w) && Enabled(w, e) && e.DeleteFailed?
    ensures Inv(Next(w, e))
  {
    var w' := Next(w, e);
    forall l, p
      ensures Charged(w'.jobs, l, p) == Charged(w.jobs, l, p)
    {
      forall id | id in e.ids
        ensures id !in Charged(w.jobs, l, p)
      {
        assert JobOk(w, w.jobs[id]);
      }
    }
    forall u | u in w'.pending
      ensures ReservationOk(w', u, w'.pending[u])
    {
      assert ReservationOk(w, u, w.pending[u]);
    }
  }

  lemma LockStep(w: World, e: Event)
    requires Inv(w) && Enabled(w, e)
    requires e.ReserveCheck? || e.ReserveCount? || e.ReserveEnd? || e.ChangeRepo?
    ensures Inv(Next(w, e))
  {
    var w' := Next(w, e);
    assert w'.jobs == w.jobs && w'.ledgers == w.ledgers;
    forall u | u in w'.pending
      ensures ReservationOk(w', u, w'.pending[u])
    {
      if u in w.pending {
        assert ReservationOk(w, u, w.pending[u]);
      }
    }
  }

  lemma StepInv(w: World, e: Event)
    requires Inv(w) && Enabled(w, e)
    ensures Inv(Next(w, e))
  {
    if TouchesOneJob(e) {
      JobStep(w, e);
    } else if e.CreateJob? {
      CreateStep(w, e);
    } else if e.Persist? {
      StopStep(w, e);
    } else if e.ReserveCharge? {
      ChargeStep(w, e);
    } else if e.DeleteFailed? {
      DeleteStep(w, e);
    } else {
      LockStep(w, e);
    }
  }

  lemma {:induction false} RunInv(w: World, run: seq<Event>)
    requires Inv(w) && Legal(w, run)
    ensures Inv(After(w, run))
    decreases |run|
  {
    if run != [] {
      StepInv(w, run[0]);
      RunInv(Next(w, run[0]), run[1..]);
    }
  }

  // ---- the ledger and the receipts ---------------------------------------------------------

  /**
   * In every reachable state each counter is its base plus the unrefunded charges on it, and
   * a job holding a charge has given it back exactly when it failed, was skipped, cancelled
   * or timed out.
   */
  lemma LedgerAgrees(w: World, run: seq<Event>)
    requires Initial(w) && Legal(w, run)
    ensures |After(w, run).ledgers| == |After(w, run).base|
    ensures forall l :: 0 <= l < |After(w, run).ledgers| ==>
              After(w, run).ledgers[l].privateCount ==
                After(w, run).base[l].privateCount + |Charged(After(w, run).jobs, l, true)|
    ensures forall l :: 0 <= l < |After(w, run).ledgers| ==>
              After(w, run).ledgers[l].publicCount ==
                After(w, run).base[l].publicCount + |Charged(After(w, run).jobs, l, false)|
    ensures forall id :: id in After(w, run).jobs && After(w, run).jobs[id].receipt.Some? ==>
              (After(w, run).jobs[id].refunded <==> After(w, run).jobs[id].status in {FAILED, SKIPPED, CANCELLED, TIMEOUT})
  {
    InitialInv(w);
    RunInv(w, run);
    var w' := After(w, run);
    forall l | 0 <= l < |w'.ledgers|
      ensures w'.ledgers[l].privateCount == w'.base[l].privateCount + |Charged(w'.jobs, l, true)|
      ensures w'.ledgers[l].publicCount == w'.base[l].publicCount + |Charged(w'.jobs, l, false)|
    {
      assert CountOf(w'.ledgers[l], true) == CountOf(w'.base[l], true) + |Charged(w'.jobs, l, true)|;
      assert CountOf(w'.ledgers[l], false) == CountOf(w'.base[l], false) + |Charged(w'.jobs, l, false)|;
    }
    forall id | id in w'.jobs && w'.jobs[id].receipt.Some?
      ensures w'.jobs[id].refunded <==> w'.jobs[id].status in {FAILED, SKIPPED, CANCELLED, TIMEOUT}
    {
      assert JobOk(w', w'.jobs[id]);
    }
  }

  /** Stopping a charged review takes one from the counter it was charged on, and from nothing else. */
  lemma RefundGoesWhereCharged(w: World, id: JobId, status: Status, expected: Option<(Status, int)>, now: int)
    requires Inv(w) && Enabled(w, Persist(id, status, expected, now)) && status in {FAILED, SKIPPED, CANCELLED, TIMEOUT}
    requires w.jobs[id].receipt.Some?
    ensures var w' := Next(w, Persist(id, status, expected, now));
            var r := w.jobs[id].receipt.value;
            && |w'.ledgers| == |w.ledgers| && w'.jobs[id].refunded && w'.jobs[id].receipt == Some(r)
            && w'.ledgers[r.ledger] ==
                 (if r.isPrivate
                  then w.ledgers[r.ledger].(privateCount := w.ledgers[r.ledger].privateCount - 1)
                  else w.ledgers[r.ledger].(publicCount := w.ledgers[r.ledger].publicCount - 1))
            && (forall l :: 0 <= l < |w.ledgers| && l != r.ledger ==> w'.ledgers[l] == w.ledgers[l])
  {
    assert JobOk(w, w.jobs[id]);
    RefundIsDue(w, id);
  }

  /** A charge lands on the account's ledger of the month that was counted. */
  lemma ChargeGoesToMonth(w: World, user: UserId, now: int)
    requires Inv(w) && Enabled(w, ReserveCharge(user, now))
    ensures var r := w.pending[user];
            var w' := Next(w, ReserveCharge(user, now));
            && w'.jobs[r.job].receipt.Some? && w'.jobs[r.job].receipt.value.isPrivate == r.isPrivate
            && w'.jobs[r.job].receipt.value.ledger < |w'.ledgers|
            && (var ledger := w'.ledgers[w'.jobs[r.job].receipt.value.ledger];
                ledger.owner == user && ledger.month == r.month && !ledger.legacy)
            && Usage(w'.ledgers, user, r.month, r.isPrivate) == Usage(w.ledgers, user, r.month, r.isPrivate) + 1
            && Usage(w'.ledgers, user, r.month, r.isPrivate) <= r.current + 1
  {
    var r := w.pending[user];
    assert ReservationOk(w, user, r);
    var at := LedgerFor(w.ledgers, user, r.month);
    var table := Upserted(w.ledgers, user, r.month);
    UsageOfUpdate(table, at, Bump(table[at], r.isPrivate, 1), user, r.month, r.isPrivate);
    if at == |w.ledgers| {
      assert table[..|table| - 1] == w.ledgers;
    }
  }

  // ---- once each, and never back -------------------------------------------------------------

  /** A finished review stays finished, or is deleted. */
  lemma TerminalStays(w: World, e: Event, id: JobId)
    requires Inv(w) && Enabled(w, e) && id in w.jobs && w.jobs[id].status in {COMPLETED, FAILED, SKIPPED, CANCELLED, TIMEOUT}
    ensures id in Next(w, e).jobs ==> Next(w, e).jobs[id].status in {COMPLETED, FAILED, SKIPPED, CANCELLED, TIMEOUT}
    ensures id in w.used && id in Next(w, e).used
  {
    if e.ReserveCharge? && w.pending[e.user].job == id {
      assert ReservationOk(w, e.user, w.pending[e.user]);
    }
  }

  lemma {:induction false} NeverRevived(w: World, run: seq<Event>, id: JobId)
    requires Inv(w) && Legal(w, run) && id in w.used
    requires id in w.jobs ==> w.jobs[id].status in {COMPLETED, FAILED, SKIPPED, CANCELLED, TIMEOUT}
    ensures id in After(w, run).jobs ==> After(w, run).jobs[id].status in {COMPLETED, FAILED, SKIPPED, CANCELLED, TIMEOUT}
    decreases |run|
  {
    if run != [] {
      StepInv(w, run[0]);
      if id in w.jobs {
        TerminalStays(w, run[0], id);
      }
      assert id in Next(w, run[0]).used;
      NeverRevived(Next(w, run[0]), run[1..], id);
    }
  }

  predicate Charges(w: World, e: Event, id: JobId)
    requires Enabled(w, e)
  {
    e.ReserveCharge? && w.pending[e.user].job == id
  }

  predicate Refunds(w: World, e: Event, id: JobId)
    requires Enabled(w, e)
  {
    id in w.jobs && id in Next(w, e).jobs && !w.jobs[id].refunded && Next(w, e).jobs[id].refunded
  }

  ghost function ChargesIn(w: World, run: seq<Event>, id: JobId): nat
    requires Legal(w, run)
    decreases |run|
  {
    if run == [] then 0
    else (if Charges(w, run[0], id) then 1 else 0) + ChargesIn(Next(w, run[0]), run[1..], id)
  }

  ghost function RefundsIn(w: World, run: seq<Event>, id: JobId): nat
    requires Legal(w, run)
    decreases |run|
  {
    if run == [] then 0
    else (if Refunds(w, run[0], id) then 1 else 0) + RefundsIn(Next(w, run[0]), run[1..], id)
  }

  /** What is still possible for a job: one charge until it has its receipt, one refund until it is refunded. */
  function ChargesLeft(w: World, id: JobId): nat {
    if id in w.jobs then (if w.jobs[id].receipt.None? then 1 else 0) else if id in w.used then 0 else 1
  }

  function RefundsLeft(w: World, id: JobId): nat {
    if id in w.jobs then (if w.jobs[id].refunded then 0 else 1) else if id in w.used then 0 else 1
  }

  lemma LeftStep(w: World, e: Event, id: JobId)
    requires Inv(w) && Enabled(w, e)
    ensures ChargesLeft(Next(w, e), id) + (if Charges(w, e, id) then 1 else 0) <= ChargesLeft(w, id)
    ensures RefundsLeft(Next(w, e), id) + (if Refunds(w, e, id) then 1 else 0) <= RefundsLeft(w, id)
  {
    if e.ReserveCharge? {
      assert ReservationOk(w, e.user, w.pending[e.user]);
    }
    if id in w.jobs {
      assert JobOk(w, w.jobs[id]);
    }
  }

  /** Over any run a job is charged at most once and refunded at most once. */
  lemma {:induction false} OnceEach(w: World, run: seq<Event>, id: JobId)
    requires Inv(w) && Legal(w, run)
    ensures ChargesIn(w, run, id) <= ChargesLeft(w, id) <= 1
    ensures RefundsIn(w, run, id) <= RefundsLeft(w, id) <= 1
    decreases |run|
  {
    if run != [] {
      LeftStep(w, run[0], id);
      StepInv(w, run[0]);
      OnceEach(Next(w, run[0]), run[1..], id);
    }
  }

  // ---- the free tier ----------------------------------------------------------------------------

  ghost predicate FreeCap(w: World, user: UserId) {
    && (forall l :: 0 <= l < |w.ledgers| && w.ledgers[l].owner == user && !w.ledgers[l].legacy ==>
          |Charged(w.jobs, l, true)| <= FREE_TIER_PRIVATE_LIMIT)
    && (user in w.pending && w.pending[user].Counted? ==> w.pending[user].tier.FREE?)
  }

  /** Every reservation of the account in the run is counted on the free tier. */
  predicate OnlyFree(run: seq<Event>, user: UserId) {
    forall e :: e in run && e.ReserveCount? && e.user == user ==> e.tier.FREE?
  }

  lemma LedgersKeepOwners(w: World, e: Event, l: LedgerId)
    requires Inv(w) && Enabled(w, e) && l < |w.ledgers|
    ensures |Next(w, e).ledgers| >= |w.ledgers|
    ensures Next(w, e).ledgers[l].owner == w.ledgers[l].owner && Next(w, e).ledgers[l].legacy == w.ledgers[l].legacy
    ensures Next(w, e).ledgers[l].month == w.ledgers[l].month
  {
  }

  lemma ChargesGrowOnlyByCharge(w: World, e: Event, l: LedgerId)
    requires Inv(w) && Enabled(w, e) && !e.ReserveCharge?
    ensures Charged(Next(w, e).jobs, l, true) <= Charged(w.jobs, l, true)
  {
    forall id | id in Charged(Next(w, e).jobs, l, true)
      ensures id in Charged(w.jobs, l, true)
    {
      if id in w.jobs {
        assert JobOk(w, w.jobs[id]);
      }
    }
  }

  lemma SmallerSet(a: set<JobId>, b: set<JobId>)
    requires a <= b
    ensures |a| <= |b|
  {
    if a != {} {
      var x :| x in a;
      SmallerSet(a - {x}, b - {x});
    }
  }

  lemma FreeCapCharge(w: World, e: Event, user: UserId, l: LedgerId)
    requires Inv(w) && Enabled(w, e) && e.ReserveCharge? && FreeCap(w, user)
    requires l < |Next(w, e).ledgers| && Next(w, e).ledgers[l].owner == user && !Next(w, e).ledgers[l].legacy
    ensures |Charged(Next(w, e).jobs, l, true)| <= FREE_TIER_PRIVATE_LIMIT
  {
    var w' := Next(w, e);
    var r := w.pending[e.user];
    assert ReservationOk(w, e.user, r) && JobOk(w, w.jobs[r.job]);
    var at := LedgerFor(w.ledgers, e.user, r.month);
    ChargeCharges(w.jobs, r.job, w'.jobs[r.job], Receipt(at, r.isPrivate));
    if l == at && r.isPrivate {
      if at < |w.ledgers| {
        BalancedIsNonNegative(w);
        UsageCovers(w.ledgers, at, e.user, r.month, true);
        assert CountOf(w.ledgers[at], true) == CountOf(w.base[at], true) + |Charged(w.jobs, at, true)|;
      } else {
        NoReceiptsBeyond(w, at, true);
      }
    } else if l == |w.ledgers| {
      NoReceiptsBeyond(w, l, true);
    }
  }

  lemma FreeCapStep(w: World, e: Event, user: UserId)
    requires Inv(w) && Enabled(w, e) && FreeCap(w, user) && OnlyFree([e], user)
    ensures FreeCap(Next(w, e), user)
  {
    var w' := Next(w, e);
    assert e in [e];
    forall l | 0 <= l < |w'.ledgers| && w'.ledgers[l].owner == user && !w'.ledgers[l].legacy
      ensures |Charged(w'.jobs, l, true)| <= FREE_TIER_PRIVATE_LIMIT
    {
      if e.ReserveCharge? {
        FreeCapCharge(w, e, user, l);
      } else {
        LedgersKeepOwners(w, e, l);
        ChargesGrowOnlyByCharge(w, e, l);
        SmallerSet(Charged(w'.jobs, l, true), Charged(w.jobs, l, true));
      }
    }
  }

  lemma {:induction false} FreeCapRun(w: World, run: seq<Event>, user: UserId)
    requires Inv(w) && Legal(w, run) && FreeCap(w, user) && OnlyFree(run, user)
    ensures FreeCap(After(w, run), user)
    decreases |run|
  {
    if run != [] {
      assert run[0] in run;
      FreeCapStep(w, run[0], user);
      StepInv(w, run[0]);
      assert forall e :: e in run[1..] ==> e in run;
      FreeCapRun(Next(w, run[0]), run[1..], user);
    }
  }

  /** An account that reserves only on the free tier never holds more than 50 private charges of one month. */
  lemma FreeTierCap(w: World, run: seq<Event>, user: UserId, month: Month, l: LedgerId)
    requires Initial(w) && Legal(w, run) && OnlyFree(run, user)
    requires l < |After(w, run).ledgers|
    requires var ledger := After(w, run).ledgers[l]; ledger.owner == user && ledger.month == month && !ledger.legacy
    ensures |Charged(After(w, run).jobs, l, true)| <= 50
    ensures forall k :: 0 <= k < |After(w, run).ledgers| && IsAccountLedger(After(w, run).ledgers[k], user, month) ==> k == l
  {
    InitialInv(w);
    assert FreeCap(w, user) by {
      forall k, p
        ensures Charged(w.jobs, k, p) == {}
      {
      }
    }
    FreeCapRun(w, run, user);
    RunInv(w, run);
    var w' := After(w, run);
    forall k | 0 <= k < |w'.ledgers| && IsAccountLedger(w'.ledgers[k], user, month)
      ensures k == l
    {
      assert SameKey(w'.ledgers[k], w'.ledgers[l]);
    }
  }

  // ---- phases, usage and the earliest repository ------------------------------------------------

  /** The order of the phases: from where a review may move on to which. */
  lemma PhasesInOrder(from: Status, phase: Phase)
    ensures MayAdvance(from, phase) <==>
            || from in {QUEUED, RUNNING, RETRYING}
            || (from == In(FETCHING) && phase in {ANALYZING, GENERATING, POSTING})
            || (from == In(ANALYZING) && phase in {GENERATING, POSTING})
            || (from == In(GENERATING) && phase == POSTING)
  {
  }

  /** Usage is a sum over ledgers, each counting for its owner and month only. */
  lemma {:induction false} UsageAdds(a: seq<Ledger>, b: seq<Ledger>, user: UserId, month: Month, p: bool)
    ensures Usage(a + b, user, month, p) == Usage(a, user, month, p) + Usage(b, user, month, p)
    ensures |b| == 1 ==>
              Usage(b, user, month, p) ==
                (if b[0].owner != user || b[0].month != month then 0 else if p then b[0].privateCount else b[0].publicCount)
    decreases |b|
  {
    if b == [] {
      assert a + b == a;
    } else {
      var init := b[..|b| - 1];
      UsageAdds(a, init, user, month, p);
      assert (a + b)[..|a + b| - 1] == a + init;
    }
  }

  /** The repository free reviews are for: active, private, and no other such repository of the account was there before. */
  lemma EarliestRepository(repos: map<RepoId, Repo>, user: UserId, repo: RepoId)
    requires repo in repos
    ensures OnEarliest(repos, user, repo) <==>
            exists r :: r in repos && repos[r].owner == user && repos[r].isPrivate && repos[r].active &&
                        repos[r].githubId == repos[repo].githubId &&
                        forall o :: o in repos && repos[o].owner == user && repos[o].isPrivate && repos[o].active ==>
                          repos[o].createdAt > repos[r].createdAt || (repos[o].createdAt == repos[r].createdAt && o >= r)
  {
    forall r | r in repos && repos[r].owner == user && repos[r].isPrivate && repos[r].active
      ensures IsEarliest(repos, user, r) <==>
              forall o :: o in repos && repos[o].owner == user && repos[o].isPrivate && repos[o].active ==>
                repos[o].createdAt > repos[r].createdAt || (repos[o].createdAt == repos[r].createdAt && o >= r)
    {
    }
  }
}
