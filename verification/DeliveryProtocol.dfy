/**
 * The tracked comment-delivery protocol (services/comment-delivery.service.ts) as a
 * state machine: the rows of one plan, what each send attempt knows, and what GitHub
 * did with each POST. There is one event per database statement, locked transaction
 * or HTTP event; every clock reading is an argument of its event and is unconstrained.
 */
module DeliveryProtocol {
  import opened Basics
  import opened DeliveryReport

  const LEASE_MS := 30_000
  const DELIVERY_WINDOW_MS := 24 * 60 * 60 * 1000
  const BACKOFF_MS := 60_000
  const MAX_RATE_LIMIT_ATTEMPTS := 3

  type ReaderId = nat

  /**
   * currentRendering: the frozen artifact carries the current rendering version.
   * verified: the findings whose location the frozen artifact still vouches for.
   */
  datatype Plan = Plan(createdAt: int, currentRendering: bool, verified: set<FindingKey>)

  /** The answer a worker gets from createReviewComment or createIssueComment. */
  datatype Reply =
    | Accepted(comment: CommentId)
    | AcceptedUnusable
    | Refused
    | RateLimited(retryAt: Option<int>)
    | Lost

  datatype Phase = Claimed | Cleared | Posted | Answered(reply: Reply) | Done

  /** What GitHub has done with the POST of a send attempt. */
  datatype Fate = NotSent | InFlight | Created(comment: CommentId) | NotCreated

  /** A send attempt, identified by its claim token; text and allowed are the worker's own copies. */
  datatype Call = Call(row: RowId, text: Option<Text>, allowed: nat, phase: Phase, fate: Fate)

  /** A run of deliverReviewPlan past its sends: has it seen all inline rows settled, and its last listing. */
  datatype Session = Session(passed: bool, view: Rows)

  datatype World = World(
    plan: Plan,
    rows: Rows,
    calls: map<Token, Call>,
    sessions: map<ReaderId, Session>,
    jobEligible: bool,
    repositoryActive: bool)

  datatype Event =
    | OmitOpen(reason: Reason)
    | OmitReady(id: RowId, reason: Reason)
    | Upgrade(id: RowId, seen: Option<Text>, text: Text)
    | Claim(id: RowId, seen: Option<Text>, token: Token, now: int)
    | Check(token: Token, now: int)
    | Abandon(token: Token)
    | Post(token: Token)
    | GitHubCreates(token: Token, comment: CommentId)
    | GitHubRefuses(token: Token)
    | Answer(token: Token, reply: Reply)
    | Record(token: Token, now: int)
    | ExpireLeases(now: int)
    | Match(id: RowId, seen: Option<Text>, found: set<CommentId>, complete: bool)
    | Purge
    | StopJob
    | Deactivate
    | Activate
    | Gate(reader: ReaderId)
    | Reread(reader: ReaderId)
    | AddSummary(reader: ReaderId, id: RowId)
    | FreezeSummary(reader: ReaderId, id: RowId)

  /** lockedJob: under the repository and job locks the job is eligible and the repository active. */
  predicate LockHolds(w: World) {
    w.jobEligible && w.repositoryActive
  }

  /** The location check of the inner send; a summary has no location. */
  predicate Located(plan: Plan, row: Row) {
    row.kind.Inline? ==> row.key.Some? && row.key.value in plan.verified
  }

  predicate Open(s: State) {
    s.Ready? || s.Waiting?
  }

  predicate Unresolved(s: State) {
    s.Sending? || s.Unknown?
  }

  // ---- row updates -----------------------------------------------------------

  function OmitRow(row: Row, reason: Reason): Row {
    row.(state := Omitted, reason := Some(reason))
  }

  function OmitIfOpen(row: Row, reason: Reason): Row {
    if Open(row.state) then OmitRow(row, reason) else row
  }

  function ExpireRow(row: Row, now: int): Row {
    if row.state.Sending? && row.leaseUntil.Some? && row.leaseUntil.value <= now
    then row.(state := Unknown, reason := Some(Unconfirmed)) else row
  }

  function PurgeRow(row: Row): Row {
    if row.state.Sending? then row.(state := Unknown, reason := Some(Disconnected))
    else OmitIfOpen(row, Disconnected)
  }

  function ClaimRow(row: Row, token: Token, now: int): Row {
    row.(state := Sending, token := Some(token), leaseUntil := Some(now + LEASE_MS), attempts := row.attempts + 1)
  }

  /** At least a minute and as long as GitHub asked for, but never past the delivery window. */
  function BackoffUntil(plan: Plan, now: int, requested: Option<int>): (until: int)
    ensures until <= plan.createdAt + 86_400_000
    ensures until == plan.createdAt + 86_400_000 ||
            (until >= now + 60_000 && (requested.Some? ==> until >= requested.value))
    ensures until == plan.createdAt + 86_400_000 || until == now + 60_000 ||
            until == if requested.Some? then requested.value else 0
  {
    Min(plan.createdAt + DELIVERY_WINDOW_MS, Max(now + BACKOFF_MS, if requested.Some? then requested.value else 0))
  }

  /** The receipt written for a worker's answer. */
  function RecordRow(plan: Plan, row: Row, reply: Reply, allowed: nat, now: int): Row {
    match reply
    case Accepted(comment) => row.(state := Delivered, comment := Some(comment), reason := None)
    case Refused => row.(state := Rejected, reason := Some(GitHubRejected))
    case RateLimited(requested) =>
      if allowed >= MAX_RATE_LIMIT_ATTEMPTS then OmitRow(row, AttemptsExhausted)
      else row.(state := Ready, reason := Some(Reason.RateLimited),
                retryAt := Some(BackoffUntil(plan, now, requested)), token := None, leaseUntil := None)
    case AcceptedUnusable => row.(state := Unknown, reason := Some(Unconfirmed))
    case Lost => row.(state := Unknown, reason := Some(Unconfirmed))
  }

  function MatchRow(row: Row, found: set<CommentId>, complete: bool): Row {
    if |found| == 1 then
      row.(state := Delivered, comment := Some(TheOnly(found)), reason := None)
    else
      row.(reason := Some(if |found| > 1 then MultipleMatches
                          else if complete then Unconfirmed else ReconciliationIncomplete))
  }

  function TheOnly(s: set<CommentId>): (c: CommentId)
    requires |s| == 1
    ensures s == {c}
  {
    OnlyOne(s);
    var c :| c in s;
    c
  }

  lemma OnlyOne(s: set<CommentId>)
    requires |s| == 1
    ensures exists c :: c in s
    ensures forall c :: c in s ==> s == {c}
  {
    assert s != {};
    forall c | c in s
      ensures s == {c}
    {
      assert |s - {c}| == 0;
    }
  }

  /** The where-clause of every receipt write: same token, same payload, still unresolved. */
  predicate OwnsReceipt(row: Row, token: Token, text: Option<Text>) {
    row.token == Some(token) && row.text == text && Unresolved(row.state)
  }

  /** The text frozen into the summary, computed from one listing of the rows. */
  function SummaryOf(rows: Rows): Text {
    SummaryText(
      ReportOf(rows),
      set id | id in InState(rows, Rejected) && rows[id].key.Some? :: rows[id].key.value,
      set id | id in InlineIds(rows) && rows[id].reason == Some(LocationUnverified) && rows[id].key.Some? ::
        rows[id].key.value)
  }

  /** It carries the figures of the listing, the rejected findings and those without a verified location. */
  lemma SummaryTells(rows: Rows, key: FindingKey)
    ensures var text := SummaryOf(rows);
            && text.figures == ReportOf(rows)
            && (key in text.fallback <==>
                exists id :: id in rows && rows[id].kind == Inline && rows[id].state == Rejected && rows[id].key == Some(key))
            && (key in text.uncertain <==>
                exists id :: id in rows && rows[id].kind == Inline && rows[id].reason == Some(LocationUnverified) &&
                             rows[id].key == Some(key))
  {
    if id :| id in rows && rows[id].kind == Inline && rows[id].state == Rejected && rows[id].key == Some(key) {
      assert id in InState(rows, Rejected);
    }
    if id :| id in rows && rows[id].kind == Inline && rows[id].reason == Some(LocationUnverified) && rows[id].key == Some(key) {
      assert id in InlineIds(rows);
    }
  }

  function NewSummary(): Row {
    Row(Summary, None, Waiting, 0, None, None, None, None, None, None)
  }

  // ---- what GitHub holds -----------------------------------------------------

  function CallsOn(calls: map<Token, Call>, id: RowId): set<Token> {
    set t | t in calls && calls[t].row == id
  }

  /** The comments GitHub created for a row: those a marker search can find. */
  function CommentsOn(calls: map<Token, Call>, id: RowId): set<CommentId> {
    set t | t in calls && calls[t].row == id && calls[t].fate.Created? :: calls[t].fate.comment
  }

  predicate FreshComment(w: World, comment: CommentId) {
    forall t :: t in w.calls && w.calls[t].fate.Created? ==> w.calls[t].fate.comment != comment
  }

  /** classifyCommentError: a rate-limit or rejection answer is given only when nothing was created. */
  predicate Truthful(reply: Reply, fate: Fate) {
    match reply
    case Accepted(comment) => fate == Created(comment)
    case AcceptedUnusable => fate.Created?
    case Refused => fate.NotCreated?
    case RateLimited(_) => fate.NotCreated?
    case Lost => !fate.NotSent?
  }

  // ---- the step relation -----------------------------------------------------

  predicate Enabled(w: World, e: Event) {
    match e
    case OmitOpen(reason) => reason == HeadChanged || reason == WindowExpired
    case OmitReady(id, reason) =>
      && id in w.rows && w.rows[id].state.Ready?
      && (reason == WindowExpired || (reason == LocationUnverified && LockHolds(w) && !Located(w.plan, w.rows[id])))
    case Upgrade(id, seen, _) =>
      !w.plan.currentRendering && LockHolds(w) && id in w.rows && w.rows[id].state.Ready? && w.rows[id].text == seen
    case Claim(id, seen, token, _) =>
      && LockHolds(w) && id in w.rows && w.rows[id].state.Ready? && w.rows[id].text == seen
      && Located(w.plan, w.rows[id]) && token !in w.calls
    case Check(token, now) =>
      && LockHolds(w) && token in w.calls && w.calls[token].phase.Claimed?
      && w.calls[token].row in w.rows
      && var row := w.rows[w.calls[token].row];
         row.state.Sending? && row.token == Some(token) && row.leaseUntil.Some? && row.leaseUntil.value > now
    case Abandon(token) => token in w.calls && (w.calls[token].phase.Claimed? || w.calls[token].phase.Cleared?)
    case Post(token) => token in w.calls && w.calls[token].phase.Cleared?
    case GitHubCreates(token, comment) => token in w.calls && w.calls[token].fate.InFlight? && FreshComment(w, comment)
    case GitHubRefuses(token) => token in w.calls && w.calls[token].fate.InFlight?
    case Answer(token, reply) => token in w.calls && w.calls[token].phase.Posted? && Truthful(reply, w.calls[token].fate)
    case Record(token, _) => token in w.calls && w.calls[token].phase.Answered? && w.calls[token].row in w.rows
    case ExpireLeases(_) => true
    case Match(id, seen, found, _) =>
      id in w.rows && w.rows[id].state.Unknown? && (|found| == 1 ==> w.rows[id].text == seen) && found <= CommentsOn(w.calls, id)
    case Purge => true
    case StopJob => true
    case Deactivate => true
    case Activate => true
    case Gate(_) => true
    case Reread(reader) =>
      && reader in w.sessions && w.sessions[reader].passed
      && NeedsLocationSummary(w.sessions[reader].view) && SummaryIds(w.rows) != {}
    case AddSummary(reader, id) =>
      && LockHolds(w) && reader in w.sessions && w.sessions[reader].passed
      && NeedsLocationSummary(w.sessions[reader].view) && SummaryIds(w.rows) == {} && id !in w.rows
    case FreezeSummary(reader, id) =>
      && LockHolds(w) && reader in w.sessions && w.sessions[reader].passed
      && id in SummaryIds(w.sessions[reader].view) && w.sessions[reader].view[id].state.Waiting?
      && id in w.rows && w.rows[id].state.Waiting?
  }

  function Next(w: World, e: Event): World
    requires Enabled(w, e)
  {
    match e
    case OmitOpen(reason) => w.(rows := map id | id in w.rows :: OmitIfOpen(w.rows[id], reason))
    case OmitReady(id, reason) => w.(rows := w.rows[id := OmitRow(w.rows[id], reason)])
    case Upgrade(id, _, text) => w.(rows := w.rows[id := w.rows[id].(text := Some(text))])
    case Claim(id, seen, token, now) =>
      w.(rows := w.rows[id := ClaimRow(w.rows[id], token, now)],
         calls := w.calls[token := Call(id, seen, 0, Claimed, NotSent)])
    case Check(token, _) =>
      var call := w.calls[token];
      w.(calls := w.calls[token := call.(phase := Cleared, allowed := w.rows[call.row].attempts)])
    case Abandon(token) => w.(calls := w.calls[token := w.calls[token].(phase := Done)])
    case Post(token) => w.(calls := w.calls[token := w.calls[token].(phase := Posted, fate := InFlight)])
    case GitHubCreates(token, comment) => w.(calls := w.calls[token := w.calls[token].(fate := Created(comment))])
    case GitHubRefuses(token) => w.(calls := w.calls[token := w.calls[token].(fate := NotCreated)])
    case Answer(token, reply) => w.(calls := w.calls[token := w.calls[token].(phase := Answered(reply))])
    case Record(token, now) =>
      var call := w.calls[token];
      var row := w.rows[call.row];
      w.(calls := w.calls[token := call.(phase := Done)],
         rows := if OwnsReceipt(row, token, call.text)
                 then w.rows[call.row := RecordRow(w.plan, row, call.phase.reply, call.allowed, now)]
                 else w.rows)
    case ExpireLeases(now) => w.(rows := map id | id in w.rows :: ExpireRow(w.rows[id], now))
    case Match(id, _, found, complete) => w.(rows := w.rows[id := MatchRow(w.rows[id], found, complete)])
    case Purge => w.(rows := map id | id in w.rows :: PurgeRow(w.rows[id]))
    case StopJob => w.(jobEligible := false)
    case Deactivate => w.(repositoryActive := false)
    case Activate => w.(repositoryActive := true)
    case Gate(reader) => w.(sessions := w.sessions[reader := Session(AllInlineSettled(w.rows), w.rows)])
    case Reread(reader) => w.(sessions := w.sessions[reader := w.sessions[reader].(view := w.rows)])
    case AddSummary(_, id) => w.(rows := w.rows[id := NewSummary()])
    case FreezeSummary(reader, id) =>
      w.(rows := w.rows[id := w.rows[id].(state := Ready, text := Some(SummaryOf(w.sessions[reader].view)))])
  }

  // ---- runs --------------------------------------------------------------------

  ghost predicate Legal(w: World, run: seq<Event>)
    decreases |run|
  {
    run != [] ==> Enabled(w, run[0]) && Legal(Next(w, run[0]), run[1..])
  }

  ghost function After(w: World, run: seq<Event>): World
    requires Legal(w, run)
    decreases |run|
  {
    if run == [] then w else After(Next(w, run[0]), run[1..])
  }

  /** Appending an enabled event to a legal run. */
  lemma {:induction false} Extend(w: World, run: seq<Event>, e: Event)
    requires Legal(w, run) && Enabled(After(w, run), e)
    ensures Legal(w, run + [e])
    ensures After(w, run + [e]) == Next(After(w, run), e)
    decreases |run|
  {
    if run == [] {
      assert run + [e] == [e];
      assert [e][1..] == [];
    } else {
      Extend(Next(w, run[0]), run[1..], e);
      assert (run + [e])[1..] == run[1..] + [e];
    }
  }

  /** A row as prepareReviewDelivery creates it. */
  predicate FreshRow(row: Row) {
    && row.attempts == 0 && row.token.None? && row.comment.None?
    && match row.kind {
         case Inline =>
           && row.key.Some?
           && (if row.state.Ready? then row.text.Some? && row.text.value.InlineText? && row.reason.None?
               else row.state.Omitted? && row.text.None? && row.reason == Some(LocationUnverified))
         case Summary => row.state.Waiting? && row.text.None?
       }
  }

  /** The worlds in which a freshly prepared plan starts. */
  ghost predicate Initial(w: World) {
    && w.jobEligible && w.repositoryActive && w.calls == map[] && w.sessions == map[]
    && (forall id :: id in w.rows ==> FreshRow(w.rows[id]))
    && (forall i, j :: i in SummaryIds(w.rows) && j in SummaryIds(w.rows) ==> i == j)
  }
}
