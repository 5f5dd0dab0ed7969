/**
 * Review jobs and the usage ledger (services/quota.service.ts, services/review-quota.ts,
 * workers/job-state.ts, workers/review-recovery.ts, workers/job-retention.ts) as a state
 * machine. A reservation is three events under the account and job locks - check, read
 * the month's usage, charge - and refunds of other jobs may fall between them.
 */
module ReviewProtocol {
  import opened Basics

  type UserId = nat
  type RepoId = nat
  type JobId = nat
  type LedgerId = nat
  type Month = string

  const FREE_TIER_PRIVATE_LIMIT := 50

  datatype Tier = FREE | INDIE | TEAM

  datatype Phase = FETCHING | ANALYZING | GENERATING | POSTING

  datatype Status =
    | QUEUED | RUNNING | RETRYING
    | In(phase: Phase)
    | COMPLETED | FAILED | SKIPPED | CANCELLED | TIMEOUT

  /** The exact charge a job holds: which ledger, and which of its two counters. */
  datatype Receipt = Receipt(ledger: LedgerId, isPrivate: bool)

  datatype Job = Job(
    repo: RepoId,
    status: Status,
    updatedAt: int,
    receipt: Option<Receipt>,
    refunded: bool,
    hasPlan: bool)

  datatype Repo = Repo(owner: UserId, active: bool, isPrivate: bool, installation: Option<nat>, githubId: nat, createdAt: int)

  /** legacy: an installation ledger from before account ledgers; its owner is the installation's account. */
  datatype Ledger = Ledger(owner: UserId, legacy: bool, month: Month, publicCount: int, privateCount: int)

  /** A reservation transaction in progress; it holds the account and job locks. */
  datatype Reservation =
    | Checked(job: JobId, isPrivate: bool)
    | Counted(job: JobId, isPrivate: bool, month: Month, tier: Tier, current: int, earliest: bool)

  datatype World = World(
    repos: map<RepoId, Repo>,
    jobs: map<JobId, Job>,
    used: set<JobId>,
    ledgers: seq<Ledger>,
    base: seq<Ledger>,
    pending: map<UserId, Reservation>)

  datatype Event =
    | CreateJob(id: JobId, repo: RepoId, now: int)
    | ReserveCheck(user: UserId, id: JobId, isPrivate: bool, installation: Option<nat>)
    | ReserveCount(user: UserId, month: Month, tier: Tier)
    | ReserveCharge(user: UserId, now: int)
    | ReserveEnd(user: UserId)
    | SkipUncharged(id: JobId, now: int)
    | Persist(id: JobId, status: Status, expected: Option<(Status, int)>, now: int)
    | Complete(id: JobId, now: int)
    | Advance(id: JobId, phase: Phase, observed: Status, now: int)
    | StartPosting(id: JobId, now: int)
    | Touch(id: JobId, now: int)
    | ChangeRepo(repo: RepoId, value: Repo)
    | DeleteFailed(ids: set<JobId>, cutoff: int)

  // ---- statuses ------------------------------------------------------------------

  predicate IsTerminal(s: Status) {
    s.COMPLETED? || s.FAILED? || s.SKIPPED? || s.CANCELLED? || s.TIMEOUT?
  }

  predicate IsInProgress(s: Status) {
    s.QUEUED? || s.In? || s.RETRYING? || s.RUNNING?
  }

  /** The terminal statuses that give the charge back. */
  predicate GivesBack(s: Status) {
    s.FAILED? || s.SKIPPED? || s.CANCELLED? || s.TIMEOUT?
  }

  function PhaseRank(p: Phase): nat {
    match p
    case FETCHING => 0
    case ANALYZING => 1
    case GENERATING => 2
    case POSTING => 3
  }

  /** advanceReview moves on from this status: never backwards, never out of a terminal one. */
  predicate MayAdvance(from: Status, phase: Phase) {
    if from.In? then PhaseRank(phase) > PhaseRank(from.phase) else !IsTerminal(from)
  }

  // ---- the ledger ------------------------------------------------------------------

  function CountOf(l: Ledger, isPrivate: bool): int {
    if isPrivate then l.privateCount else l.publicCount
  }

  function Bump(l: Ledger, isPrivate: bool, change: int): Ledger {
    if isPrivate then l.(privateCount := l.privateCount + change) else l.(publicCount := l.publicCount + change)
  }

  /** getAccountUsage: account and legacy ledgers of the month together. */
  function Usage(ledgers: seq<Ledger>, user: UserId, month: Month, isPrivate: bool): int {
    if ledgers == [] then 0
    else
      var last := ledgers[|ledgers| - 1];
      Usage(ledgers[..|ledgers| - 1], user, month, isPrivate) +
      (if last.owner == user && last.month == month then CountOf(last, isPrivate) else 0)
  }

  predicate IsAccountLedger(l: Ledger, user: UserId, month: Month) {
    l.owner == user && !l.legacy && l.month == month
  }

  /** The account ledger of the month, found or appended. */
  function LedgerFor(ledgers: seq<Ledger>, user: UserId, month: Month): (at: nat)
    ensures at <= |ledgers|
    ensures at < |ledgers| ==> IsAccountLedger(ledgers[at], user, month)
    ensures at == |ledgers| ==> forall i :: 0 <= i < |ledgers| ==> !IsAccountLedger(ledgers[i], user, month)
  {
    if ledgers == [] then 0
    else if IsAccountLedger(ledgers[0], user, month) then 0
    else
      var rest := LedgerFor(ledgers[1..], user, month);
      assert rest < |ledgers[1..]| ==> ledgers[1..][rest] == ledgers[1 + rest];
      assert forall i :: 1 <= i < |ledgers| ==> ledgers[i] == ledgers[1..][i - 1];
      1 + rest
  }

  function Upserted(ledgers: seq<Ledger>, user: UserId, month: Month): seq<Ledger> {
    if LedgerFor(ledgers, user, month) < |ledgers| then ledgers else ledgers + [Ledger(user, false, month, 0, 0)]
  }

  /** refundReviewQuota: mark the receipt, then take the charge back unless the counter is already 0. */
  function RefundLedgers(ledgers: seq<Ledger>, job: Job): seq<Ledger> {
    if job.receipt.Some? && !job.refunded && job.receipt.value.ledger < |ledgers| &&
       CountOf(ledgers[job.receipt.value.ledger], job.receipt.value.isPrivate) > 0
    then ledgers[job.receipt.value.ledger := Bump(ledgers[job.receipt.value.ledger], job.receipt.value.isPrivate, -1)]
    else ledgers
  }

  function RefundJob(job: Job): Job {
    if job.receipt.Some? then job.(refunded := true) else job
  }

  // ---- the free tier ----------------------------------------------------------------

  predicate Before(repos: map<RepoId, Repo>, a: RepoId, b: RepoId)
    requires a in repos && b in repos
  {
    repos[a].createdAt < repos[b].createdAt || (repos[a].createdAt == repos[b].createdAt && a <= b)
  }

  /** The earliest connected active private repository of the account. */
  predicate IsEarliest(repos: map<RepoId, Repo>, user: UserId, r: RepoId) {
    && r in repos && repos[r].owner == user && repos[r].isPrivate && repos[r].active
    && (forall o :: o in repos && repos[o].owner == user && repos[o].isPrivate && repos[o].active ==> Before(repos, r, o))
  }

  predicate OnEarliest(repos: map<RepoId, Repo>, user: UserId, repo: RepoId) {
    repo in repos && exists r :: r in repos && IsEarliest(repos, user, r) && repos[r].githubId == repos[repo].githubId
  }

  predicate Limited(isPrivate: bool, tier: Tier) {
    isPrivate && tier.FREE?
  }

  predicate Allowed(r: Reservation)
    requires r.Counted?
  {
    Limited(r.isPrivate, r.tier) ==> r.earliest && r.current < FREE_TIER_PRIVATE_LIMIT
  }

  // ---- steps ------------------------------------------------------------------------

  /** No reservation transaction holds this job's row lock. */
  predicate Unlocked(w: World, id: JobId) {
    forall u :: u in w.pending ==> w.pending[u].job != id
  }

  predicate Reservable(w: World, user: UserId, id: JobId, installation: Option<nat>) {
    && id in w.jobs && w.jobs[id].repo in w.repos
    && var repo := w.repos[w.jobs[id].repo];
       repo.owner == user && repo.active && repo.installation == installation && IsInProgress(w.jobs[id].status)
  }

  predicate Expected(job: Job, expected: Option<(Status, int)>) {
    expected.Some? ==> job.status == expected.value.0 && job.updatedAt == expected.value.1
  }

  predicate Enabled(w: World, e: Event) {
    match e
    case CreateJob(id, repo, _) => id !in w.used && repo in w.repos
    case ReserveCheck(user, id, isPrivate, installation) =>
      user !in w.pending && Unlocked(w, id) && Reservable(w, user, id, installation) && w.jobs[id].receipt.None?
    case ReserveCount(user, _, _) => user in w.pending && w.pending[user].Checked? && w.pending[user].job in w.jobs
    case ReserveCharge(user, _) =>
      user in w.pending && w.pending[user].Counted? && Allowed(w.pending[user]) && w.pending[user].job in w.jobs
    case ReserveEnd(user) => user in w.pending
    case SkipUncharged(id, _) => id in w.jobs && Unlocked(w, id) && w.jobs[id].receipt.None?
    case Persist(id, status, expected, _) =>
      && id in w.jobs && Unlocked(w, id) && !IsTerminal(w.jobs[id].status) && Expected(w.jobs[id], expected)
      && (IsTerminal(status) || status.RETRYING?)
    case Complete(id, _) =>
      id in w.jobs && Unlocked(w, id) && w.jobs[id].repo in w.repos && w.repos[w.jobs[id].repo].active &&
      !GivesBack(w.jobs[id].status)
    case Advance(id, phase, observed, _) =>
      id in w.jobs && Unlocked(w, id) && w.jobs[id].status == observed && MayAdvance(observed, phase)
    case StartPosting(id, _) =>
      id in w.jobs && Unlocked(w, id) && w.jobs[id].repo in w.repos && w.repos[w.jobs[id].repo].active &&
      IsInProgress(w.jobs[id].status)
    case Touch(id, _) => id in w.jobs && Unlocked(w, id)
    case ChangeRepo(_, _) => true
    case DeleteFailed(ids, cutoff) =>
      forall id :: id in ids ==>
        id in w.jobs && Unlocked(w, id) && w.jobs[id].status.FAILED? && w.jobs[id].updatedAt < cutoff && !w.jobs[id].hasPlan
  }

  function SetJob(w: World, id: JobId, job: Job): World {
    w.(jobs := w.jobs[id := job])
  }

  function Next(w: World, e: Event): World
    requires Enabled(w, e)
  {
    match e
    case CreateJob(id, repo, now) =>
      w.(jobs := w.jobs[id := Job(repo, QUEUED, now, None, false, false)], used := w.used + {id})
    case ReserveCheck(user, id, isPrivate, _) => w.(pending := w.pending[user := Checked(id, isPrivate)])
    case ReserveCount(user, month, tier) =>
      var r := w.pending[user];
      w.(pending := w.pending[user :=
        Counted(r.job, r.isPrivate, month, tier, Usage(w.ledgers, user, month, r.isPrivate),
                OnEarliest(w.repos, user, w.jobs[r.job].repo))])
    case ReserveCharge(user, now) =>
      var r := w.pending[user];
      var at := LedgerFor(w.ledgers, user, r.month);
      var table := Upserted(w.ledgers, user, r.month);
      w.(ledgers := table[at := Bump(table[at], r.isPrivate, 1)],
         base := if at < |w.ledgers| then w.base else w.base + [table[at]],
         jobs := w.jobs[r.job := w.jobs[r.job].(receipt := Some(Receipt(at, r.isPrivate)), updatedAt := now)],
         pending := w.pending - {user})
    case ReserveEnd(user) => w.(pending := w.pending - {user})
    case SkipUncharged(id, now) => SetJob(w, id, w.jobs[id].(status := SKIPPED, updatedAt := now))
    case Persist(id, status, _, now) =>
      var job := w.jobs[id].(status := status, updatedAt := now);
      if GivesBack(status)
      then w.(jobs := w.jobs[id := RefundJob(job)], ledgers := RefundLedgers(w.ledgers, w.jobs[id]))
      else SetJob(w, id, job)
    case Complete(id, now) => SetJob(w, id, w.jobs[id].(status := COMPLETED, updatedAt := now))
    case Advance(id, phase, _, now) => SetJob(w, id, w.jobs[id].(status := In(phase), updatedAt := now))
    case StartPosting(id, now) => SetJob(w, id, w.jobs[id].(status := In(POSTING), updatedAt := now, hasPlan := true))
    case Touch(id, now) => SetJob(w, id, w.jobs[id].(updatedAt := now))
    case ChangeRepo(repo, value) => w.(repos := w.repos[repo := value])
    case DeleteFailed(ids, _) => w.(jobs := w.jobs - ids)
  }

  ghost predicate Legal(w: World, run: seq<Event>)
    decreases |run|
  {
    run != [] ==> Enabled(w, run[0]) && Legal(Next(w, run[0]), run[1..])
  }

  ghost function After(w: World, run: seq<Event>): World
    requires Legal(w, run)
    decreases |run|
  {
    if run == [] then w else After(Next(w, run[0]), run[1..])
  }

  lemma {:induction false} Extend(w: World, run: seq<Event>, e: Event)
    requires Legal(w, run) && Enabled(After(w, run), e)
    ensures Legal(w, run + [e])
    ensures After(w, run + [e]) == Next(After(w, run), e)
    decreases |run|
  {
    if run == [] {
      assert run + [e] == [e];
      assert [e][1..] == [];
    } else {
      Extend(Next(w, run[0]), run[1..], e);
      assert (run + [e])[1..] == run[1..] + [e];
    }
  }

  /** No jobs yet; whatever the ledgers hold already is their base. */
  ghost predicate Initial(w: World) {
    && w.jobs == map[] && w.pending == map[] && w.ledgers == w.base
    && (forall l :: l in w.base ==> l.publicCount >= 0 && l.privateCount >= 0)
    && UniqueLedgers(w.ledgers)
  }

  /** The unique key on account and month. */
  ghost predicate UniqueLedgers(ledgers: seq<Ledger>) {
    forall i, j :: 0 <= i < |ledgers| && 0 <= j < |ledgers| && SameKey(ledgers[i], ledgers[j]) ==> i == j
  }

  predicate SameKey(a: Ledger, b: Ledger) {
    !a.legacy && !b.legacy && a.owner == b.owner && a.month == b.month
  }
}
