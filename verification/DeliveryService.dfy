/**
 * The delivery code itself (services/comment-delivery.service.ts) run against the shared
 * table: every database call is one event of the protocol, and between any two of them
 * the other workers, reconcilers and requests may do whatever the protocol allows.
 */
module DeliveryService {
  import opened Basics
  import opened DeliveryReport
  import opened DeliveryProtocol
  import opened DeliverySafety
  import opened DeliveryTheorems
  import opened DeliverySummary
  import opened DeliveryFreeze
  import opened DeliveryTrace

  /** A frozen suggestion: its identity, and whether its location is verified. */
  datatype Finding = Finding(key: FindingKey, anchored: bool)

  /** How a guarded update ended: the lock check threw, no row matched, or the row was written. */
  datatype Written = Stopped | Missed | Applied

  datatype Outcome =
    | Aborted
    | NotReady
    | OmittedUnsent
    | LockRefused
    | BackingOff(until: int)
    | LostRace
    | NotAllowed
    | Settled(reply: Reply, now: int)

  /** A finished report, DeliveryPendingError, or any other error. */
  datatype Delivery = Finished(report: Report) | Pending | Failed

  /** Whether the event is a step of one of these send attempts or of this delivery's own listings. */
  predicate StepOf(e: Event, mine: set<Token>, me: set<ReaderId>) {
    match e
    case Claim(_, _, token, _) => token in mine
    case Check(token, _) => token in mine
    case Abandon(token) => token in mine
    case Post(token) => token in mine
    case Answer(token, _) => token in mine
    case Record(token, _) => token in mine
    case Gate(reader) => reader in me
    case Reread(reader) => reader in me
    case AddSummary(reader, _) => reader in me
    case FreezeSummary(reader, _) => reader in me
    case _ => false
  }

  /** What others can do to an attempt: only GitHub may still decide the fate of its POST. */
  predicate Undisturbed(before: Call, after: Call) {
    && after == before.(fate := after.fate)
    && (!before.fate.InFlight? ==> after.fate == before.fate)
    && (before.fate.InFlight? ==> !after.fate.NotSent?)
  }

  lemma OthersLeaveMine(w: World, e: Event, mine: set<Token>, me: set<ReaderId>)
    requires Enabled(w, e) && !StepOf(e, mine, me)
    ensures forall t :: t in mine ==> (t in Next(w, e).calls <==> t in w.calls)
    ensures forall t :: t in mine && t in w.calls ==> Undisturbed(w.calls[t], Next(w, e).calls[t])
    ensures forall r :: r in me ==> (r in Next(w, e).sessions <==> r in w.sessions)
    ensures forall r :: r in me && r in w.sessions ==> Next(w, e).sessions[r] == w.sessions[r]
  {
    hide RecordRow;
    hide MatchRow;
    hide OwnsReceipt;
    hide SummaryOf;
    hide AllInlineSettled;
    hide NeedsLocationSummary;
  }

  /** Comments once created stay findable. */
  lemma CommentsStay(w: World, e: Event, id: RowId)
    requires CallsOk(w) && Enabled(w, e)
    ensures CommentsOn(w.calls, id) <= CommentsOn(Next(w, e).calls, id)
  {
    var calls, calls' := w.calls, Next(w, e).calls;
    forall c | c in CommentsOn(calls, id)
      ensures c in CommentsOn(calls', id)
    {
      var t :| t in calls && calls[t].row == id && calls[t].fate.Created? && calls[t].fate.comment == c;
      assert CallOk(calls[t]);
      assert t in calls' && calls'[t].row == id && calls'[t].fate == calls[t].fate;
    }
  }

  function OmitAllOpen(rows: Rows, reason: Reason): Rows {
    map id | id in rows ::
      if rows[id].state.Ready? || rows[id].state.Waiting?
      then rows[id].(state := State.Omitted, reason := Some(reason)) else rows[id]
  }

  function DoubtAllClaims(rows: Rows, reason: Reason): Rows {
    map id | id in rows :: if rows[id].state.Sending? then rows[id].(state := Unknown, reason := Some(reason)) else rows[id]
  }

  /** The two bulk updates of a purge amount to one change per row. */
  lemma PurgeInTwoSteps(w: World)
    ensures w.(rows := DoubtAllClaims(OmitAllOpen(w.rows, Disconnected), Disconnected)) == Next(w, Purge)
  {
    var purged := Next(w, Purge).rows;
    var twice := DoubtAllClaims(OmitAllOpen(w.rows, Disconnected), Disconnected);
    assert twice.Keys == purged.Keys;
    assert forall id :: id in twice ==> twice[id] == purged[id];
    assert twice == purged;
  }

  lemma ExpiredInOneStep(w: World, rows: Rows, now: int)
    requires rows.Keys == w.rows.Keys
    requires forall id :: id in rows ==>
               rows[id] == if w.rows[id].state == Sending && w.rows[id].leaseUntil.Some? && w.rows[id].leaseUntil.value <= now
                           then w.rows[id].(state := Unknown, reason := Some(Unconfirmed)) else w.rows[id]
    ensures Enabled(w, ExpireLeases(now)) && w.(rows := rows) == Next(w, ExpireLeases(now))
  {
    var expired := Next(w, ExpireLeases(now)).rows;
    assert expired.Keys == rows.Keys;
    assert forall id :: id in rows ==> rows[id] == expired[id];
    assert rows == expired;
  }

  /** The events a send attempt performs when it gets all the way to its receipt. */
  ghost predicate FullAttempt(trace: seq<Event>, id: RowId, token: Token, outcome: Outcome) {
    && |trace| == 5 && outcome.Settled?
    && trace[0].Claim? && trace[0].id == id && trace[0].token == token
    && trace[1].Check? && trace[1].token == token
    && trace[2] == Post(token)
    && trace[3] == Answer(token, outcome.reply)
    && trace[4] == Record(token, outcome.now)
  }

  predicate ClaimsWith(e: Event, id: RowId, token: Token) {
    e.Claim? && e.id == id && e.token == token
  }

  lemma AttemptMoves(trace: seq<Event>, id: RowId, token: Token, outcome: Outcome)
    requires FullAttempt(trace, id, token, outcome)
    ensures forall k :: 0 <= k < |trace| ==> OnlyMoves(trace[k], id) && (trace[k].Claim? ==> trace[k].token == token)
  {
  }

  /** The log has grown, and not by a POST. */
  predicate PostFree(before: seq<Event>, after: seq<Event>) {
    before <= after && forall i :: |before| <= i < |after| ==> !after[i].Post?
  }

  /** The log has grown by reconciliation steps only. */
  predicate OnlyEvidence(before: seq<Event>, after: seq<Event>) {
    before <= after && forall i :: |before| <= i < |after| ==> after[i].ExpireLeases? || after[i].Match?
  }

  /** The row after the receipt for this answer, whatever anybody else did meanwhile. */
  predicate ReceiptHolds(plan: Plan, row: Row, reply: Reply, now: int) {
    match reply
    case Accepted(comment) => row.state.Delivered? && row.comment == Some(comment)
    case Refused => row.state.Rejected?
    case RateLimited(requested) =>
      if row.attempts >= 3 then row.state.Omitted? && row.reason == Some(AttemptsExhausted)
      else row.state.Ready? && row.token.None? && row.retryAt == Some(BackoffUntil(plan, now, requested))
    case AcceptedUnusable => row.state.Unknown? || row.state.Delivered?
    case Lost => row.state.Unknown? || row.state.Delivered?
  }

  lemma ReceiptAfterRecord(w: World, token: Token, now: int)
    requires Inv(w) && Enabled(w, Record(token, now))
    ensures var id := w.calls[token].row;
            ReceiptHolds(w.plan, Next(w, Record(token, now)).rows[id], w.calls[token].phase.reply, now)
  {
    assert CallOk(w.calls[token]);
    HolderOwns(w, token);
    HolderAllowed(w.calls, token, w.rows[w.calls[token].row]);
  }

  /** prepareReviewDelivery keeps the last suggestion of each identity, in order of first appearance. */
  function LastOf(findings: seq<Finding>, key: FindingKey): (f: Finding)
    requires key in Keys(findings)
    ensures f in findings && f.key == key
  {
    var last := findings[|findings| - 1];
    if last.key == key then last
    else
      assert Keys(findings) == Keys(findings[..|findings| - 1]) + {last.key};
      LastOf(findings[..|findings| - 1], key)
  }

  /** It is the last one: none after it has the same key. */
  lemma {:induction false} LastIsLast(findings: seq<Finding>, key: FindingKey) returns (i: nat)
    requires key in Keys(findings)
    ensures i < |findings| && findings[i] == LastOf(findings, key) && forall j :: i < j < |findings| ==> findings[j].key != key
    decreases |findings|
  {
    var n := |findings| - 1;
    if findings[n].key == key {
      i := n;
    } else {
      assert Keys(findings) == Keys(findings[..n]) + {findings[n].key};
      i := LastIsLast(findings[..n], key);
    }
  }

  function Keys(findings: seq<Finding>): set<FindingKey> {
    set f | f in findings :: f.key
  }

  function InlineRow(f: Finding): Row {
    if f.anchored
    then Row(Inline, Some(f.key), Ready, 0, None, None, None, Some(InlineText(f.key, 2)), None, None)
    else Row(Inline, Some(f.key), State.Omitted, 0, None, None, None, None, None, Some(LocationUnverified))
  }

  /** READY with its text where the location is verified, otherwise omitted for that reason. */
  predicate PreparedAs(row: Row, f: Finding) {
    && row.kind == Inline && row.key == Some(f.key) && row == InlineRow(f)
    && (if f.anchored then row.state == Ready && row.text == Some(InlineText(f.key, 2)) && row.reason == None
        else row.state == State.Omitted && row.text == None && row.reason == Some(LocationUnverified))
  }

  /** Every distinct finding has exactly one inline row, rendered from its last occurrence. */
  ghost predicate InlinePrepared(rows: Rows, findings: seq<Finding>) {
    && (forall key :: key in Keys(findings) ==> exists id :: id in rows && PreparedAs(rows[id], LastOf(findings, key)))
    && (forall id :: id in InlineIds(rows) ==> rows[id].key.Some? && rows[id].key.value in Keys(findings))
    && (forall i, j :: i in InlineIds(rows) && j in InlineIds(rows) && rows[i].key == rows[j].key ==> i == j)
  }

  /** One summary row when summaries are on or some location is unverified, and none otherwise. */
  ghost predicate SummaryPrepared(rows: Rows, summarize: bool) {
    && OneSummary(rows)
    && (SummaryIds(rows) != {} <==> summarize || exists id :: id in InlineIds(rows) && rows[id].state.Omitted?)
  }

  /** The findings whose last occurrence has a verified location. */
  function Verified(findings: seq<Finding>): set<FindingKey> {
    set f | f in findings && LastOf(findings, f.key).anchored :: f.key
  }

  /** A freshly prepared plan has its summary row, or every finding in it can be sent. */
  lemma PreparedNeverRelists(rows: Rows, plan: Plan, findings: seq<Finding>, summarize: bool)
    requires InlinePrepared(rows, findings) && SummaryPrepared(rows, summarize)
    requires (forall id :: id in rows ==> FreshRow(rows[id])) && plan.verified == Verified(findings)
    ensures !MayRelist(plan, rows)
  {
    if SummaryIds(rows) == {} {
      forall id | id in InlineIds(rows)
        ensures Sendable(plan, rows[id])
      {
        assert FreshRow(rows[id]) && !rows[id].state.Omitted?;
        var key := rows[id].key.value;
        var i :| i in rows && rows[i] == InlineRow(LastOf(findings, key));
        assert i in InlineIds(rows) && i == id;
        assert LastOf(findings, key) in findings && LastOf(findings, key).anchored;
      }
    }
  }

  method Distinct(findings: seq<Finding>) returns (order: seq<FindingKey>, latest: map<FindingKey, Finding>)
    ensures LastOfEach(findings, order, latest)
  {
    latest, order := map[], [];
    for k := 0 to |findings|
      invariant latest.Keys == Keys(findings[..k])
      invariant forall key :: key in latest ==> latest[key] == LastOf(findings[..k], key)
      invariant forall i, j :: 0 <= i < j < |order| ==> order[i] != order[j]
      invariant forall key :: key in order <==> key in latest
    {
      var f := findings[k];
      assert findings[..k + 1][..k] == findings[..k];
      assert Keys(findings[..k + 1]) == Keys(findings[..k]) + {f.key};
      if f.key !in latest {
        order := order + [f.key];
      }
      latest := latest[f.key := f];
    }
    assert findings[..|findings|] == findings;
  }

  method InlineRows(order: seq<FindingKey>, latest: map<FindingKey, Finding>) returns (table: Rows, unverified: bool)
    requires forall i :: 0 <= i < |order| ==> order[i] in latest && latest[order[i]].key == order[i]
    ensures forall id :: id in table <==> 0 <= id < |order|
    ensures forall id :: id in table ==> table[id] == InlineRow(latest[order[id]])
    ensures unverified <==> exists id :: id in table && table[id].state.Omitted?
  {
    table, unverified := map[], false;
    for k := 0 to |order|
      invariant forall id :: id in table <==> 0 <= id < k
      invariant forall id :: id in table ==> table[id] == InlineRow(latest[order[id]])
      invariant unverified <==> exists id :: id in table && table[id].state.Omitted?
    {
      table := table[k := InlineRow(latest[order[k]])];
      if !latest[order[k]].anchored {
        assert table[k].state.Omitted?;
        unverified := true;
      }
    }
  }

  /** The summary row, when there is one, follows the inline rows. */
  ghost predicate Assembled(rows: Rows, order: seq<FindingKey>, latest: map<FindingKey, Finding>, summary: bool) {
    && (forall id :: id in rows <==> 0 <= id < |order| || (summary && id == |order|))
    && (forall id :: id in rows && id < |order| ==> order[id] in latest && rows[id] == InlineRow(latest[order[id]]))
    && (summary ==> rows[|order|] == NewSummary())
  }

  lemma AssembledKinds(rows: Rows, order: seq<FindingKey>, latest: map<FindingKey, Finding>, summary: bool)
    requires Assembled(rows, order, latest, summary)
    ensures forall id :: id in InlineIds(rows) <==> id in rows && id < |order|
    ensures SummaryIds(rows) == if summary then {|order|} else {}
    ensures forall id :: id in rows ==> FreshRow(rows[id])
  {
    forall id | id in rows
      ensures id in InlineIds(rows) <==> id < |order|
      ensures FreshRow(rows[id])
    {
      if id < |order| {
        assert rows[id] == InlineRow(latest[order[id]]);
      }
    }
  }

  ghost predicate LastOfEach(findings: seq<Finding>, order: seq<FindingKey>, latest: map<FindingKey, Finding>) {
    && latest.Keys == Keys(findings)
    && (forall key :: key in latest ==> latest[key] == LastOf(findings, key))
    && (forall i, j :: 0 <= i < j < |order| ==> order[i] != order[j])
    && (forall key :: key in order <==> key in latest)
  }

  lemma AssembledInline(rows: Rows, order: seq<FindingKey>, latest: map<FindingKey, Finding>, summary: bool, findings: seq<Finding>)
    requires Assembled(rows, order, latest, summary) && LastOfEach(findings, order, latest)
    ensures InlinePrepared(rows, findings)
  {
    AssembledKinds(rows, order, latest, summary);
    forall id | id in InlineIds(rows)
      ensures id < |order| && rows[id].key == Some(order[id]) && order[id] in Keys(findings)
    {
      assert order[id] in latest && rows[id] == InlineRow(latest[order[id]]);
    }
    hide PreparedAs;
    hide InlineRow;
    forall key | key in Keys(findings)
      ensures exists id :: id in rows && PreparedAs(rows[id], LastOf(findings, key))
    {
      var i :| 0 <= i < |order| && order[i] == key;
      InlineRowIs(LastOf(findings, key));
      assert i in rows && rows[i] == InlineRow(LastOf(findings, key));
    }
  }

  lemma InlineRowIs(f: Finding)
    ensures PreparedAs(InlineRow(f), f)
  {
  }

  method PrepareRows(findings: seq<Finding>, summarize: bool) returns (rows: Rows)
    ensures forall id :: id in rows ==> FreshRow(rows[id])
    ensures InlinePrepared(rows, findings)
    ensures SummaryPrepared(rows, summarize)
  {
    var order, latest := Distinct(findings);
    var table, unverified := InlineRows(order, latest);
    var summary := summarize || unverified;
    rows := if summary then table[|order| := NewSummary()] else table;
    Assemble(rows, table, order, latest, summary);
    AssembledKinds(rows, order, latest, summary);
    AssembledInline(rows, order, latest, summary, findings);
    SummaryExactly(rows, table, |order|, summarize, unverified);
  }

  lemma Assemble(rows: Rows, table: Rows, order: seq<FindingKey>, latest: map<FindingKey, Finding>, summary: bool)
    requires rows == if summary then table[|order| := NewSummary()] else table
    requires forall id :: id in table <==> 0 <= id < |order|
    requires forall i :: 0 <= i < |order| ==> order[i] in latest
    requires forall id :: id in table ==> table[id] == InlineRow(latest[order[id]])
    ensures Assembled(rows, order, latest, summary)
    ensures forall id :: id in table ==> id in rows && rows[id] == table[id]
  {
    assert |order| !in table;
  }

  lemma SummaryExactly(rows: Rows, table: Rows, n: nat, summarize: bool, unverified: bool)
    requires forall id :: id in table <==> 0 <= id < n
    requires forall id :: id in table ==> id in rows && rows[id] == table[id]
    requires forall id :: id in InlineIds(rows) <==> id in rows && id < n
    requires SummaryIds(rows) == if summarize || unverified then {n} else {}
    requires unverified <==> exists id :: id in table && table[id].state.Omitted?
    ensures SummaryPrepared(rows, summarize)
  {
    if unverified {
      var id :| id in table && table[id].state.Omitted?;
      assert id in InlineIds(rows) && rows[id].state.Omitted?;
    }
    if id :| id in InlineIds(rows) && rows[id].state.Omitted? {
      assert id in table && table[id].state.Omitted?;
    }
  }

  class DeliveryService {
    const plan: Plan
    var rows: Rows
    var calls: map<Token, Call>
    var sessions: map<ReaderId, Session>
    var jobEligible: bool
    var repositoryActive: bool
    // The abort signal, and the last reading of the clock.
    var aborted: bool
    var clock: int

    ghost const start: World
    // Everything that happened to the plan, and the parts of it that this service object and others did.
    ghost var history: seq<Event>
    ghost var own: seq<Event>
    ghost var others: seq<Event>

    function View(): World
      reads this`rows, this`calls, this`sessions, this`jobEligible, this`repositoryActive
    {
      World(plan, rows, calls, sessions, jobEligible, repositoryActive)
    }

    /** The table is where the protocol leads from the freshly prepared plan. */
    ghost predicate Valid()
      reads this`rows, this`calls, this`sessions, this`jobEligible, this`repositoryActive,
            this`history, this`own, this`others
    {
      Initial(start) && Legal(start, history) && After(start, history) == View() && Logged()
    }

    /** What can be said of this moment later on. */
    lemma Remember()
      requires Valid()
      ensures Recalled(history, own, others, rows)
    {
    }

    ghost predicate Logged()
      reads this`history, this`own, this`others
    {
      multiset(history) == multiset(own) + multiset(others)
    }

    /** A valid table satisfies the safety invariants of the protocol. */
    lemma ValidIsSafe()
      requires Valid()
      ensures Inv(View()) && SummaryInv(View())
    {
      InitialInv(start);
      assert SummaryInv(start) by {
        forall i | i in start.rows && start.rows[i].kind.Summary?
          ensures SummaryRowOk(start, start.rows[i])
        {
          assert FreshRow(start.rows[i]);
        }
      }
      RunInv(start, history);
      RunSummary(start, history);
    }

    /** A row listed earlier is still there, for the same finding. */
    lemma FindingStays(past: seq<Event>, o: seq<Event>, p: seq<Event>, listed: Rows, id: RowId)
      requires Valid() && Recalled(past, o, p, listed) && id in listed
      ensures SameFinding(rows, id, listed[id])
    {
      InitialInv(start);
      assert past + history[|past|..] == history;
      FindingsStay(start, past, history[|past|..], id);
    }

    lemma SlotStays(past: seq<Event>, o: seq<Event>, p: seq<Event>, listed: Rows)
      requires Valid() && Recalled(past, o, p, listed) && SummaryIds(listed) != {}
      ensures SummaryIds(rows) != {}
    {
      var id :| id in SummaryIds(listed);
      FindingStays(past, o, p, listed, id);
      assert id in SummaryIds(rows);
    }

    /** The logs as they were at an earlier moment, and the table of that moment. */
    ghost predicate Recalled(past: seq<Event>, o: seq<Event>, p: seq<Event>, listed: Rows)
      reads this`history, this`own, this`others
    {
      && past <= history && o <= own && p <= others && multiset(past) == multiset(o) + multiset(p)
      && Legal(start, past) && After(start, past).rows == listed
    }

    lemma StillOrMoved(past: seq<Event>, o: seq<Event>, p: seq<Event>, listed: Rows, id: RowId)
      requires Valid() && Recalled(past, o, p, listed) && id in listed && listed[id].state.Ready?
      ensures (id in rows && rows[id] == listed[id]) || MovedSince(own, |o|, id) || MovedSince(others, |p|, id)
    {
      var run := history[|past|..];
      assert past + run == history;
      AfterSplit(start, past, run);
      if forall k :: 0 <= k < |run| ==> !MovesReady(run[k], id) {
        ReadyUntilMoved(After(start, past), run, id);
      } else {
        var k :| 0 <= k < |run| && MovesReady(run[k], id);
        assert history[|past| + k] == run[k];
        SomebodyDid(history, own, others, past, o, p, |past| + k);
      }
    }

    lemma StillOrResolved(past: seq<Event>, o: seq<Event>, p: seq<Event>, listed: Rows, id: RowId)
      requires Valid() && Recalled(past, o, p, listed) && id in listed && listed[id].state.Unknown?
      ensures (id in rows && rows[id] == listed[id]) || ResolvedSince(own, |o|, id) || ResolvedSince(others, |p|, id)
    {
      var run := history[|past|..];
      assert past + run == history;
      AfterSplit(start, past, run);
      if forall k :: 0 <= k < |run| ==> !Resolves(run[k], id) {
        UnknownUntilResolved(After(start, past), run, id);
      } else {
        var k :| 0 <= k < |run| && Resolves(run[k], id);
        assert history[|past| + k] == run[k];
        SomebodyDid(history, own, others, past, o, p, |past| + k);
      }
    }

    ghost method Log(before: World, e: Event)
      requires Initial(start) && Legal(start, history) && After(start, history) == before
      requires Enabled(before, e) && View() == Next(before, e)
      modifies this`history
      ensures Initial(start) && Legal(start, history) && After(start, history) == View()
      ensures history == old(history) + [e]
    {
      Extend(start, history, e);
      history := history + [e];
    }

    // ---- prepareReviewDelivery ---------------------------------------------------

    /** One row per distinct finding, and one summary row when asked for or when a location is unverified. */
    constructor Prepare(createdAt: int, findings: seq<Finding>, summarize: bool)
      ensures Valid() && history == [] && own == [] && others == []
      ensures plan == Plan(createdAt, true, Verified(findings))
      ensures InlinePrepared(rows, findings) && SummaryPrepared(rows, summarize)
      ensures !MayRelist(plan, rows)
    {
      var table := PrepareRows(findings, summarize);
      var frozen := Plan(createdAt, true, Verified(findings));
      PreparedNeverRelists(table, frozen, findings, summarize);
      plan, rows, calls, sessions, jobEligible, repositoryActive := frozen, table, map[], map[], true, true;
      start := World(frozen, table, map[], map[], true, true);
      history, own, others := [], [], [];
      aborted, clock := *, *;
    }

    /** A plan as an earlier release prepared it, perhaps without a summary row or with an older rendering. */
    constructor Load(plan: Plan, rows: Rows)
      requires Initial(World(plan, rows, map[], map[], true, true))
      ensures Valid() && history == [] && own == [] && others == [] && this.plan == plan && this.rows == rows
    {
      this.plan, this.rows := plan, rows;
      calls, sessions, jobEligible, repositoryActive := map[], map[], true, true;
      start := World(plan, rows, map[], map[], true, true);
      history, own, others := [], [], [];
      aborted, clock := *, *;
    }

    // ---- everybody else ------------------------------------------------------------

    method Perform(e: Event)
      requires Valid() && Enabled(View(), e)
      modifies this`rows, this`calls, this`sessions, this`jobEligible, this`repositoryActive, this`history, this`others
      ensures Valid() && View() == Next(old(View()), e) && history == old(history) + [e] && others == old(others) + [e]
    {
      hide Next;
      hide Enabled;
      hide Initial;
      hide Legal;
      hide After;
      ghost var before := View();
      PlanKept(before, e);
      var after := Next(View(), e);
      rows, calls, sessions := after.rows, after.calls, after.sessions;
      jobEligible, repositoryActive := after.jobEligible, after.repositoryActive;
      Log(before, e);
      others := others + [e];
    }

    /** An await: any number of steps of anything but these attempts and these listings. */
    method Await(mine: set<Token>, me: set<ReaderId>)
      requires Valid()
      modifies this`rows, this`calls, this`sessions, this`jobEligible, this`repositoryActive,
               this`history, this`others, this`aborted, this`clock
      ensures Valid() && old(history) <= history && old(others) <= others && (old(aborted) ==> aborted)
      ensures forall t :: t in mine ==> (t in calls <==> t in old(calls))
      ensures forall t :: t in mine && t in calls ==> Undisturbed(old(calls[t]), calls[t])
      ensures forall r :: r in me ==> (r in sessions <==> r in old(sessions))
      ensures forall r :: r in me && r in sessions ==> sessions[r] == old(sessions[r])
      ensures forall id :: CommentsOn(old(calls), id) <= CommentsOn(calls, id)
    {
      var schedule: seq<Event> := *;
      if * {
        aborted := true;
      }
      clock := *;
      for k := 0 to |schedule|
        invariant Valid() && old(history) <= history && old(others) <= others && (old(aborted) ==> aborted)
        invariant forall t :: t in mine ==> (t in calls <==> t in old(calls))
        invariant forall t :: t in mine && t in calls ==> Undisturbed(old(calls[t]), calls[t])
        invariant forall r :: r in me ==> (r in sessions <==> r in old(sessions))
        invariant forall r :: r in me && r in sessions ==> sessions[r] == old(sessions[r])
        invariant forall id :: CommentsOn(old(calls), id) <= CommentsOn(calls, id)
      {
        if Enabled(View(), schedule[k]) && !StepOf(schedule[k], mine, me) {
          PerformOther(schedule[k], mine, me);
        }
      }
    }

    method PerformOther(e: Event, mine: set<Token>, me: set<ReaderId>)
      requires Valid() && Enabled(View(), e) && !StepOf(e, mine, me)
      modifies this`rows, this`calls, this`sessions, this`jobEligible, this`repositoryActive, this`history, this`others
      ensures Valid() && old(history) <= history && old(others) <= others
      ensures forall t :: t in mine ==> (t in calls <==> t in old(calls))
      ensures forall t :: t in mine && t in calls ==> Undisturbed(old(calls[t]), calls[t])
      ensures forall r :: r in me ==> (r in sessions <==> r in old(sessions))
      ensures forall r :: r in me && r in sessions ==> sessions[r] == old(sessions[r])
      ensures forall id :: CommentsOn(old(calls), id) <= CommentsOn(calls, id)
    {
      ghost var before := View();
      OthersLeaveMine(before, e, mine, me);
      ValidIsSafe();
      forall id
        ensures CommentsOn(before.calls, id) <= CommentsOn(Next(before, e).calls, id)
      {
        CommentsStay(before, e, id);
      }
      Perform(e);
    }

    // ---- one database call each ----------------------------------------------------

    /** This service performed exactly this event, and nothing else happened. */
    twostate predicate Did(e: Event)
      reads this
    {
      && old(Enabled(View(), e)) && View() == Next(old(View()), e)
      && history == old(history) + [e] && own == old(own) + [e]
    }

    /** The tables and the logs are as they were. */
    twostate predicate Unmoved()
      reads this
    {
      && View() == old(View()) && history == old(history) && own == old(own) && others == old(others)
    }

    /** Date.now(): nothing is assumed of a reading. */
    method ReadClock() returns (now: int)
      modifies this`clock
      ensures now == clock
    {
      clock := *;
      now := clock;
    }

    ghost method LogOwn(before: World, e: Event)
      requires Initial(start) && Legal(start, history) && After(start, history) == before
      requires Enabled(before, e) && View() == Next(before, e) && Logged()
      modifies this`history, this`own
      ensures Valid() && history == old(history) + [e] && own == old(own) + [e]
    {
      hide Next;
      hide Enabled;
      hide Initial;
      hide Legal;
      hide After;
      Log(before, e);
      own := own + [e];
    }

    /** updateMany over the READY and WAITING rows of the plan. */
    method OmitOpenRows(reason: Reason)
      requires Valid() && (reason == HeadChanged || reason == WindowExpired)
      modifies this`rows, this`history, this`own
      ensures Valid() && Did(OmitOpen(reason))
      ensures rows.Keys == old(rows).Keys
      ensures forall id :: id in rows ==>
                rows[id] == if old(rows)[id].state in {State.Ready, State.Waiting}
                            then old(rows)[id].(state := State.Omitted, reason := Some(reason)) else old(rows)[id]
    {
      hide Legal;
      hide After;
      hide Initial;
      ghost var before := View();
      rows := OmitAllOpen(rows, reason);
      LogOwn(before, OmitOpen(reason));
    }

    /** A window that has run out needs no lock; an unverified location is only recorded under it. */
    method OmitReadyRow(id: RowId, reason: Reason) returns (written: Written)
      requires Valid() && (reason == WindowExpired || reason == LocationUnverified)
      requires reason == LocationUnverified && id in rows ==> !Located(plan, rows[id])
      modifies this`rows, this`history, this`own
      ensures Valid()
      ensures written.Applied? <==>
                old(id in rows && rows[id].state == Ready && (reason == LocationUnverified ==> jobEligible && repositoryActive))
      ensures written.Applied? ==>
                Did(OmitReady(id, reason)) && rows == old(rows)[id := old(rows)[id].(state := State.Omitted, reason := Some(reason))]
      ensures !written.Applied? ==> Unmoved() && !Enabled(View(), OmitReady(id, reason))
      ensures written.Stopped? <==> reason == LocationUnverified && !(old(jobEligible) && old(repositoryActive))
    {
      hide Legal;
      hide After;
      hide Initial;
      if reason == LocationUnverified && !(jobEligible && repositoryActive) {
        return Stopped;
      }
      if id !in rows || !rows[id].state.Ready? {
        return Missed;
      }
      ghost var before := View();
      rows := rows[id := rows[id].(state := State.Omitted, reason := Some(reason))];
      LogOwn(before, OmitReady(id, reason));
      return Applied;
    }

    method UpgradeRow(id: RowId, seen: Option<Text>, text: Text) returns (written: Written)
      requires Valid() && !plan.currentRendering
      modifies this`rows, this`history, this`own
      ensures Valid()
      ensures written.Applied? <==> old(jobEligible && repositoryActive && StillReady(id, seen))
      ensures written.Applied? ==>
                Did(Upgrade(id, seen, text)) && rows == old(rows)[id := old(rows)[id].(text := Some(text))]
      ensures !written.Applied? ==> Unmoved() && !Enabled(View(), Upgrade(id, seen, text))
      ensures written.Stopped? <==> !(old(jobEligible) && old(repositoryActive))
    {
      hide Legal;
      hide After;
      hide Initial;
      if !jobEligible || !repositoryActive {
        return Stopped;
      }
      if id !in rows || !rows[id].state.Ready? || rows[id].text != seen {
        return Missed;
      }
      ghost var before := View();
      rows := rows[id := rows[id].(text := Some(text))];
      LogOwn(before, Upgrade(id, seen, text));
      return Applied;
    }

    method ClaimReadyRow(id: RowId, seen: Option<Text>, token: Token, now: int) returns (written: Written)
      requires Valid() && token !in calls && (id in rows ==> Located(plan, rows[id]))
      modifies this`rows, this`calls, this`history, this`own
      ensures Valid()
      ensures written.Applied? ==> Did(Claim(id, seen, token, now))
      ensures written.Applied? <==> old(jobEligible && repositoryActive && StillReady(id, seen))
      ensures written.Applied? ==> calls == old(calls)[token := Call(id, seen, 0, Claimed, NotSent)] && id in old(rows)
      ensures written.Applied? ==>
                rows == old(rows)[id := old(rows)[id].(state := Sending, token := Some(token),
                                                       leaseUntil := Some(now + 30_000), attempts := old(rows)[id].attempts + 1)]
      ensures !written.Applied? ==> Unmoved() && !Enabled(View(), Claim(id, seen, token, now))
      ensures written.Stopped? <==> !(old(jobEligible) && old(repositoryActive))
    {
      hide Legal;
      hide After;
      hide Initial;
      if !jobEligible || !repositoryActive {
        return Stopped;
      }
      if id !in rows || !rows[id].state.Ready? || rows[id].text != seen {
        return Missed;
      }
      ghost var before := View();
      var row := rows[id];
      rows := rows[id := row.(state := Sending, token := Some(token), leaseUntil := Some(now + LEASE_MS),
                              attempts := row.attempts + 1)];
      calls := calls[token := Call(id, seen, 0, Claimed, NotSent)];
      LogOwn(before, Claim(id, seen, token, now));
      return Applied;
    }

    /** The second look under the lock: is the claim still ours and its lease running? */
    method CheckClaim(token: Token, now: int) returns (written: Written)
      requires Valid() && token in calls && calls[token].phase.Claimed?
      modifies this`calls, this`history, this`own
      ensures Valid()
      ensures written.Applied? <==>
                old(jobEligible && repositoryActive && calls[token].row in rows &&
                    var row := rows[calls[token].row];
                    row.state == Sending && row.token == Some(token) && row.leaseUntil.Some? && row.leaseUntil.value > now)
      ensures written.Applied? ==>
                Did(Check(token, now)) &&
                calls == old(calls)[token := old(calls)[token].(phase := Cleared, allowed := rows[old(calls)[token].row].attempts)]
      ensures !written.Applied? ==> Unmoved() && !Enabled(View(), Check(token, now))
      ensures written.Stopped? <==> !(old(jobEligible) && old(repositoryActive))
    {
      hide Legal;
      hide After;
      hide Initial;
      if !jobEligible || !repositoryActive {
        return Stopped;
      }
      var id := calls[token].row;
      if id !in rows || !rows[id].state.Sending? || rows[id].token != Some(token) ||
         rows[id].leaseUntil.None? || rows[id].leaseUntil.value <= now {
        return Missed;
      }
      ghost var before := View();
      calls := calls[token := calls[token].(phase := Cleared, allowed := rows[id].attempts)];
      LogOwn(before, Check(token, now));
      return Applied;
    }

    method GiveUp(token: Token)
      requires Valid() && token in calls && (calls[token].phase.Claimed? || calls[token].phase.Cleared?)
      modifies this`calls, this`history, this`own
      ensures Valid() && Did(Abandon(token)) && calls == old(calls)[token := old(calls)[token].(phase := Done)]
    {
      hide Legal;
      hide After;
      hide Initial;
      ghost var before := View();
      calls := calls[token := calls[token].(phase := Done)];
      LogOwn(before, Abandon(token));
    }

    method Dispatch(token: Token)
      requires Valid() && token in calls && calls[token].phase.Cleared?
      modifies this`calls, this`history, this`own
      ensures Valid() && Did(Post(token))
      ensures calls == old(calls)[token := old(calls)[token].(phase := Posted, fate := InFlight)]
    {
      hide Legal;
      hide After;
      hide Initial;
      ghost var before := View();
      calls := calls[token := calls[token].(phase := Posted, fate := InFlight)];
      LogOwn(before, Post(token));
    }

    /** The answer that comes back, if any does: anything GitHub could truthfully have said. */
    method Hear(token: Token) returns (reply: Reply)
      requires Valid() && token in calls && calls[token].phase.Posted? && !calls[token].fate.NotSent?
      modifies this`calls, this`history, this`own
      ensures Valid() && Did(Answer(token, reply))
      ensures calls == old(calls)[token := old(calls)[token].(phase := Answered(reply))]
    {
      hide Legal;
      hide After;
      hide Initial;
      assert Truthful(Lost, calls[token].fate);
      reply :| Truthful(reply, calls[token].fate);
      ghost var before := View();
      calls := calls[token := calls[token].(phase := Answered(reply))];
      LogOwn(before, Answer(token, reply));
    }

    /** The row with the receipt for the answer of this attempt. */
    static ghost function Receipted(row: Row, call: Call, plan: Plan, now: int): Row
      requires call.phase.Answered?
    {
      match call.phase.reply
      case Accepted(comment) => row.(state := Delivered, comment := Some(comment), reason := None)
      case Refused => row.(state := Rejected, reason := Some(GitHubRejected))
      case RateLimited(requested) =>
        if call.allowed < 3
        then row.(state := Ready, reason := Some(Reason.RateLimited), retryAt := Some(BackoffUntil(plan, now, requested)),
                  token := None, leaseUntil := None)
        else row.(state := State.Omitted, reason := Some(AttemptsExhausted))
      case _ => row.(state := Unknown, reason := Some(Unconfirmed))
    }

    method WriteReceipt(token: Token, now: int)
      requires Valid() && token in calls && calls[token].phase.Answered? && calls[token].row in rows
      modifies this`rows, this`calls, this`history, this`own
      ensures Valid() && Did(Record(token, now))
      ensures calls == old(calls)[token := old(calls)[token].(phase := Done)]
      ensures var call, row := old(calls)[token], old(rows)[old(calls)[token].row];
              rows == if row.token == Some(token) && row.text == call.text && row.state in {Sending, State.Unknown}
                      then old(rows)[call.row := Receipted(row, call, plan, now)] else old(rows)
    {
      hide SummaryOf;
      hide AllInlineSettled;
      hide NeedsLocationSummary;
      hide BackoffUntil;
      hide MatchRow;
      hide Located;
      hide Legal;
      hide After;
      hide Initial;
      ghost var before := View();
      var call := calls[token];
      var row := rows[call.row];
      calls := calls[token := call.(phase := Done)];
      if row.token == Some(token) && row.text == call.text && (row.state.Sending? || row.state.Unknown?) {
        match call.phase.reply {
          case Accepted(comment) =>
            rows := rows[call.row := row.(state := Delivered, comment := Some(comment), reason := None)];
          case Refused =>
            rows := rows[call.row := row.(state := Rejected, reason := Some(GitHubRejected))];
          case RateLimited(requested) =>
            if call.allowed >= MAX_RATE_LIMIT_ATTEMPTS {
              rows := rows[call.row := row.(state := State.Omitted, reason := Some(AttemptsExhausted))];
            } else {
              var retryAt := BackoffUntil(plan, now, requested);
              rows := rows[call.row := row.(state := Ready, reason := Some(Reason.RateLimited), retryAt := Some(retryAt),
                                            token := None, leaseUntil := None)];
            }
          case AcceptedUnusable =>
            rows := rows[call.row := row.(state := Unknown, reason := Some(Unconfirmed))];
          case Lost =>
            rows := rows[call.row := row.(state := Unknown, reason := Some(Unconfirmed))];
        }
      }
      LogOwn(before, Record(token, now));
    }

    // ---- send ------------------------------------------------------------------------

    /** The claim of this attempt is still in force. */
    predicate Held(id: RowId, token: Token)
      reads this`rows, this`clock
    {
      && id in rows && rows[id].state == Sending && rows[id].token == Some(token)
      && rows[id].leaseUntil.Some? && rows[id].leaseUntil.value > clock
    }

    /** The row is as it was read, and can be claimed. */
    predicate StillReady(id: RowId, text: Option<Text>)
      reads this`rows
    {
      id in rows && rows[id].state == Ready && rows[id].text == text
    }

    /** The listings of this delivery are as they were. */
    twostate predicate SameListings(me: set<ReaderId>)
      reads this`sessions
    {
      forall r :: r in me ==> (r in sessions <==> r in old(sessions)) && (r in sessions ==> sessions[r] == old(sessions)[r])
    }

    /** The claims this service has made since are those of one attempt. */
    ghost predicate OwnClaims(token: Token, o: nat)
      reads this`own
    {
      forall k :: o <= k < |own| && own[k].Claim? ==> own[k].token == token
    }

    /** What this service has added to its log moves no READY row but this one. */
    ghost predicate OwnMovesOnly(id: RowId, o: nat)
      reads this`own
    {
      forall k :: o <= k < |own| ==> OnlyMoves(own[k], id)
    }

    /**
     * The inner send of deliverReviewPlan, for a row as read earlier. Whatever everybody
     * else does in between, the row ends as the answer requires, and a POST was dispatched
     * exactly when an answer is reported. Every way out without one has its reason.
     */
    method Send(id: RowId, row: Row, token: Token, me: set<ReaderId>) returns (outcome: Outcome)
      requires Valid() && token !in calls && SameFinding(rows, id, row)
      modifies this
      ensures Valid() && old(history) <= history && old(own) <= own && old(others) <= others && (old(aborted) ==> aborted)
      ensures outcome.Settled? ==>
                && id in rows && ReceiptHolds(plan, rows[id], outcome.reply, outcome.now)
                && (FullAttempt(own[|old(own)|..], id, token, outcome) ||
                    (|own| > |old(own)| && own[|old(own)|].Upgrade? && own[|old(own)|].id == id &&
                     FullAttempt(own[|old(own)| + 1..], id, token, outcome)))
      ensures !outcome.Settled? ==> PostFree(old(own), own)
      ensures row.state.Ready? || outcome.Aborted? || outcome.NotReady?
      ensures outcome.Aborted? || outcome.NotReady? || outcome.BackingOff? ==> Unmoved()
      ensures OwnMovesOnly(id, |old(own)|) && OwnClaims(token, |old(own)|) && SameListings(me)
      ensures old(aborted) ==> outcome.Aborted?
      ensures outcome.Aborted? ==> aborted
      ensures outcome.NotReady? ==> row.state != Ready
      ensures outcome.LockRefused? ==> !jobEligible || !repositoryActive
      ensures outcome.BackingOff? ==> row.retryAt == Some(outcome.until) && outcome.until > clock
      ensures outcome.NotAllowed? ==> aborted || !Held(id, token)
      ensures outcome.OmittedUnsent? || outcome.LostRace? ==>
                TakenUp(own, |old(own)|, others, |old(others)|, id) || !old(StillReady(id, row.text))
      ensures outcome.NotAllowed? || outcome.Settled? ==> exists k :: |old(own)| <= k < |own| && ClaimsWith(own[k], id, token)
      ensures outcome.OmittedUnsent? || outcome.LostRace? ==> forall k :: |old(own)| <= k < |own| ==> !own[k].Claim?
    {
      hide Valid;
      hide ReceiptHolds;
      hide FullAttempt;
      hide StillReady;
      hide Held;
      ghost var o, p := own, others;
      var text, exit := ReadyText(id, row, token, me);
      if exit.Some? {
        return exit.value;
      }
      ghost var o', p' := own, others;
      outcome := Proceed(id, row, text, token, me);
      LaterStill(o', |o|, p', |p|, own, |o|, others, |p|);
      LaterStill(own, |o'|, others, |p'|, own, |o|, others, |p|);
    }

    /** An await before the claim, and the rest of the attempt. */
    method Proceed(id: RowId, row: Row, text: Option<Text>, token: Token, me: set<ReaderId>) returns (outcome: Outcome)
      requires Valid() && token !in calls && SameFinding(rows, id, row) && Located(plan, row)
      modifies this
      ensures Valid() && old(history) <= history && old(own) <= own && old(others) <= others && (old(aborted) ==> aborted)
      ensures outcome.Settled? ==>
                id in rows && ReceiptHolds(plan, rows[id], outcome.reply, outcome.now) &&
                FullAttempt(own[|old(own)|..], id, token, outcome)
      ensures !outcome.Settled? ==> PostFree(old(own), own)
      ensures outcome.Settled? || outcome.LockRefused? || outcome.LostRace? || outcome.NotAllowed?
      ensures OwnMovesOnly(id, |old(own)|) && OwnClaims(token, |old(own)|) && SameListings(me)
      ensures outcome.LostRace? ==>
                own == old(own) && (MovedSince(others, |old(others)|, id) || !old(StillReady(id, text)))
      ensures outcome.LockRefused? ==> !jobEligible || !repositoryActive
      ensures outcome.NotAllowed? ==> aborted || !Held(id, token)
      ensures outcome.NotAllowed? || outcome.Settled? ==> |own| > |old(own)| && ClaimsWith(own[|old(own)|], id, token)
    {
      hide Valid;
      hide ReceiptHolds;
      hide FullAttempt;
      hide Legal;
      hide After;
      ghost var past, o, p, ready := history, own, others, rows;
      Remember();
      Await({token}, me);
      FindingStays(past, o, p, ready, id);
      if id in ready && ready[id].state.Ready? {
        StillOrMoved(past, o, p, ready, id);
      }
      ghost var p' := others;
      outcome := SendClaimed(id, text, token, me);
      LongerLog(p', others, |p|, |p|, id);
    }

    /** Up to the claim: the checks, and the bytes to send. */
    method ReadyText(id: RowId, row: Row, token: Token, me: set<ReaderId>) returns (text: Option<Text>, exit: Option<Outcome>)
      requires Valid() && token !in calls && SameFinding(rows, id, row)
      modifies this
      ensures Valid() && old(history) <= history && old(own) <= own && old(others) <= others && (old(aborted) ==> aborted)
      ensures token !in calls && SameListings(me) && SameFinding(rows, id, row)
      ensures exit.None? ==>
                && row.state == Ready && Located(plan, row) && !old(aborted)
                && (own == old(own) || (|own| == |old(own)| + 1 && own[|old(own)|].Upgrade? && own[|old(own)|].id == id))
                && (StillReady(id, text) || TakenUp(own, |old(own)|, others, |old(others)|, id) || !old(StillReady(id, row.text)))
      ensures exit.Some? ==>
                && !exit.value.Settled? && !exit.value.NotAllowed? && PostFree(old(own), own) && OwnMovesOnly(id, |old(own)|)
                && (forall k :: |old(own)| <= k < |own| ==> !own[k].Claim?)
                && (row.state == Ready || exit.value.Aborted? || exit.value.NotReady?)
                && (exit.value.Aborted? || exit.value.NotReady? || exit.value.BackingOff? ==> Unmoved())
                && (old(aborted) ==> exit.value.Aborted?) && (exit.value.Aborted? ==> aborted)
                && (exit.value.NotReady? ==> row.state != Ready)
                && (exit.value.LockRefused? ==> !jobEligible || !repositoryActive)
                && (exit.value.BackingOff? ==> row.retryAt == Some(exit.value.until) && exit.value.until > clock)
                && (exit.value.OmittedUnsent? || exit.value.LostRace? ==>
                      TakenUp(own, |old(own)|, others, |old(others)|, id) || !old(StillReady(id, row.text)))
    {
      hide Next;
      hide Enabled;
      hide Valid;
      hide Legal;
      hide After;
      ghost var past, o, p, listed := history, own, others, rows;
      Remember();
      var now := ReadClock();
      var later := ReadClock();
      var go, refusal := Preflight(id, row, now, later);
      if !go {
        if own != o {
          assert Takes(own[|o|], id);
        }
        return row.text, Some(refusal);
      }
      Await({token}, me);
      if id in listed && listed[id].state.Ready? {
        StillOrMoved(past, o, p, listed, id);
      }
      FindingStays(past, o, p, listed, id);
      var rendered: Text := *;
      text, exit := Refresh(id, row.text, rendered);
    }

    /** The checks before anything is claimed, at two readings of the clock. */
    method Preflight(id: RowId, row: Row, now: int, later: int) returns (go: bool, exit: Outcome)
      requires Valid() && SameFinding(rows, id, row) && clock == later
      modifies this`rows, this`history, this`own
      ensures Valid() && old(history) <= history && PostFree(old(own), own)
      ensures go <==> && !aborted && row.state == Ready && now < plan.createdAt + 86_400_000
                      && (row.kind == Inline ==> row.key.Some? && row.key.value in plan.verified)
                      && (row.retryAt.Some? ==> row.retryAt.value <= later)
      ensures go ==> Unmoved()
      ensures SameFinding(rows, id, row)
      ensures !exit.Settled? && !exit.LostRace? && !exit.NotAllowed?
      ensures !go && exit.Aborted? <==> aborted
      ensures !go && exit.NotReady? <==> !aborted && row.state != Ready
      ensures !go && exit.BackingOff? ==> row.retryAt == Some(exit.until) && exit.until > clock
      ensures !go && exit.LockRefused? ==> !jobEligible || !repositoryActive
      ensures !go && exit.OmittedUnsent? ==>
                (id !in rows || rows[id].state != Ready) &&
                (Unmoved() || own == old(own) + [OmitReady(id, WindowExpired)] || own == old(own) + [OmitReady(id, LocationUnverified)])
      ensures !go && !exit.OmittedUnsent? ==> Unmoved()
    {
      if aborted {
        return false, Aborted;
      }
      if !row.state.Ready? {
        return false, NotReady;
      }
      if now >= plan.createdAt + DELIVERY_WINDOW_MS {
        var _ := OmitReadyRow(id, WindowExpired);
        return false, OmittedUnsent;
      }
      if !Located(plan, row) {
        var written := OmitReadyRow(id, LocationUnverified);
        return false, if written.Stopped? then LockRefused else OmittedUnsent;
      }
      if row.retryAt.Some? && row.retryAt.value > later {
        return false, BackingOff(row.retryAt.value);
      }
      return true, LockRefused;
    }

    /** Re-render a definitely unsent payload of an older plan; a lost race never authorizes a POST. */
    method Refresh(id: RowId, seen: Option<Text>, rendered: Text) returns (text: Option<Text>, refused: Option<Outcome>)
      requires Valid()
      modifies this`rows, this`history, this`own
      ensures Valid() && old(history) <= history
      ensures old(id in rows) ==> id in rows && rows[id].kind == old(rows[id].kind) && rows[id].key == old(rows[id].key)
      ensures old(id !in rows) ==> id !in rows
      ensures Unmoved() ||
              (refused.None? && own == old(own) + [Upgrade(id, seen, rendered)] && StillReady(id, text))
      ensures plan.currentRendering ==> text == seen && refused.None? && Unmoved()
      ensures !plan.currentRendering && refused.None? ==> text == Some(rendered)
      ensures refused.None? && Unmoved() ==> text == seen
      ensures refused.Some? ==>
                || (refused.value.LockRefused? && (!jobEligible || !repositoryActive))
                || (refused.value.LostRace? && !StillReady(id, seen))
    {
      text, refused := seen, None;
      if !plan.currentRendering {
        if Some(rendered) != text {
          var written := UpgradeRow(id, text, rendered);
          if !written.Applied? {
            return seen, Some(if written.Stopped? then LockRefused else LostRace);
          }
          text := Some(rendered);
        }
      }
    }

    /** From the claim to the receipt. */
    method SendClaimed(id: RowId, text: Option<Text>, token: Token, me: set<ReaderId>) returns (outcome: Outcome)
      requires Valid() && token !in calls && (id in rows ==> Located(plan, rows[id]))
      modifies this
      ensures Valid() && old(history) <= history && old(own) <= own && old(others) <= others && (old(aborted) ==> aborted)
      ensures outcome.Settled? ==>
                id in rows && ReceiptHolds(plan, rows[id], outcome.reply, outcome.now) &&
                FullAttempt(own[|old(own)|..], id, token, outcome)
      ensures !outcome.Settled? ==> PostFree(old(own), own)
      ensures outcome.Settled? || outcome.LockRefused? || outcome.LostRace? || outcome.NotAllowed?
      ensures OwnMovesOnly(id, |old(own)|) && OwnClaims(token, |old(own)|) && SameListings(me)
      ensures outcome.LostRace? ==> own == old(own) && !old(StillReady(id, text))
      ensures outcome.LockRefused? ==> !jobEligible || !repositoryActive
      ensures outcome.NotAllowed? ==> aborted || !Held(id, token)
      ensures outcome.NotAllowed? || outcome.Settled? ==> |own| > |old(own)| && ClaimsWith(own[|old(own)|], id, token)
    {
      hide Next;
      hide Enabled;
      hide Valid;
      hide Legal;
      hide After;
      hide ReceiptHolds;
      hide Held;
      hide StillReady;
      ghost var o := own;
      outcome := Acquire(id, text, token, me);
      if outcome.Settled? {
        var reply, now := PostAndRecord(id, token, me);
        outcome := Settled(reply, now);
        assert FullAttempt(own[|o|..], id, token, outcome);
        AttemptMoves(own[|o|..], id, token, outcome);
        assert forall k :: |o| <= k < |own| ==> own[k] == own[|o|..][k - |o|];
      }
    }

    /** The POST of a cleared attempt, and the receipt for its answer. */
    method PostAndRecord(id: RowId, token: Token, me: set<ReaderId>) returns (reply: Reply, now: int)
      requires Valid() && token in calls && calls[token].row == id && calls[token].phase.Cleared?
      modifies this
      ensures Valid() && old(history) <= history && old(others) <= others && (old(aborted) ==> aborted) && SameListings(me)
      ensures own == old(own) + [Post(token), Answer(token, reply), Record(token, now)]
      ensures id in rows && ReceiptHolds(plan, rows[id], reply, now)
    {
      hide Next;
      hide Enabled;
      hide Valid;
      hide ReceiptHolds;
      reply := Exchange(token, me);
      Await({token}, me);
      now := ReadClock();
      Conclude(token, now);
    }

    /** Claim the row and pass the second lock check; the outcome is provisional when both succeed. */
    method Acquire(id: RowId, text: Option<Text>, token: Token, me: set<ReaderId>) returns (outcome: Outcome)
      requires Valid() && token !in calls && (id in rows ==> Located(plan, rows[id]))
      modifies this
      ensures Valid() && old(history) <= history && old(own) <= own && old(others) <= others && (old(aborted) ==> aborted)
      ensures outcome.Settled? ==>
                && token in calls && calls[token].row == id && calls[token].phase.Cleared?
                && |own| == |old(own)| + 2
                && own[|old(own)| + 1].Check? && own[|old(own)| + 1].token == token
      ensures !outcome.Settled? ==> PostFree(old(own), own)
      ensures outcome.Settled? || outcome.LockRefused? || outcome.LostRace? || outcome.NotAllowed?
      ensures OwnMovesOnly(id, |old(own)|) && OwnClaims(token, |old(own)|) && SameListings(me)
      ensures outcome.LostRace? ==> own == old(own) && !old(StillReady(id, text))
      ensures outcome.LockRefused? ==> !jobEligible || !repositoryActive
      ensures outcome.NotAllowed? ==> aborted || !Held(id, token)
      ensures outcome.NotAllowed? || outcome.Settled? ==> |own| > |old(own)| && ClaimsWith(own[|old(own)|], id, token)
    {
      hide Next;
      hide Enabled;
      hide Valid;
      hide Legal;
      hide After;
      outcome := TakeClaim(id, text, token);
      if outcome.Settled? {
        Await({token}, me);
        outcome := LookAgain(id, token);
      }
    }

    method TakeClaim(id: RowId, text: Option<Text>, token: Token) returns (outcome: Outcome)
      requires Valid() && token !in calls && (id in rows ==> Located(plan, rows[id]))
      modifies this`rows, this`calls, this`history, this`own, this`clock
      ensures Valid() && old(history) <= history
      ensures outcome.Settled? || outcome.LockRefused? || outcome.LostRace?
      ensures outcome.Settled? ==>
                token in calls && calls[token] == Call(id, text, 0, Claimed, NotSent) &&
                own == old(own) + [Claim(id, text, token, outcome.now)]
      ensures !outcome.Settled? ==> Unmoved()
      ensures outcome.LockRefused? <==> !(old(jobEligible) && old(repositoryActive))
      ensures outcome.LostRace? ==> !StillReady(id, text)
    {
      hide Valid;
      hide Next;
      hide Enabled;
      var now := ReadClock();
      var written := ClaimReadyRow(id, text, token, now);
      return if written.Applied? then Settled(Lost, now) else if written.Stopped? then LockRefused else LostRace;
    }

    method LookAgain(id: RowId, token: Token) returns (outcome: Outcome)
      requires Valid() && token in calls && calls[token].phase.Claimed? && calls[token].row == id
      modifies this`calls, this`history, this`own, this`clock
      ensures Valid() && old(history) <= history
      ensures outcome.Settled? || outcome.LockRefused? || outcome.NotAllowed?
      ensures outcome.Settled? ==>
                token in calls && calls[token].row == id && calls[token].phase.Cleared? &&
                own == old(own) + [Check(token, outcome.now)]
      ensures !outcome.Settled? ==> PostFree(old(own), own) && OwnMovesOnly(id, |old(own)|) && OwnClaims(token, |old(own)|)
      ensures outcome.Settled? <==> jobEligible && repositoryActive && !aborted && Held(id, token)
      ensures outcome.LockRefused? <==> !jobEligible || !repositoryActive
    {
      hide Valid;
      hide Legal;
      hide After;
      var now := ReadClock();
      var written := CheckClaim(token, now);
      if !written.Applied? || aborted {
        GiveUp(token);
        return if written.Stopped? then LockRefused else NotAllowed;
      }
      return Settled(Lost, now);
    }

    /** The one POST of the attempt, and its answer. */
    method Exchange(token: Token, me: set<ReaderId>) returns (reply: Reply)
      requires Valid() && token in calls && calls[token].phase.Cleared?
      modifies this
      ensures Valid() && old(history) <= history && own == old(own) + [Post(token), Answer(token, reply)]
      ensures old(others) <= others && (old(aborted) ==> aborted) && SameListings(me)
      ensures token in calls && calls[token].row == old(calls[token].row) && calls[token].phase == Answered(reply)
    {
      hide Valid;
      hide Next;
      hide Enabled;
      Await({token}, me);
      Dispatch(token);
      Await({token}, me);
      reply := Hear(token);
    }

    method Conclude(token: Token, now: int)
      requires Valid() && token in calls && calls[token].phase.Answered?
      modifies this`rows, this`calls, this`history, this`own
      ensures Valid() && old(history) <= history && own == old(own) + [Record(token, now)]
      ensures var id := old(calls[token].row);
              id in rows && ReceiptHolds(plan, rows[id], old(calls[token].phase.reply), now)
    {
      ValidIsSafe();
      assert CallOk(calls[token]);
      HolderOwns(View(), token);
      ReceiptAfterRecord(View(), token, now);
      WriteReceipt(token, now);
    }

    // ---- reconcileReviewDelivery ----------------------------------------------------

    method ExpireOldLeases(now: int)
      requires Valid()
      modifies this`rows, this`history, this`own
      ensures Valid() && Did(ExpireLeases(now))
      ensures rows.Keys == old(rows).Keys
      ensures forall id :: id in rows ==>
                rows[id] == if old(rows)[id].state == Sending && old(rows)[id].leaseUntil.Some? && old(rows)[id].leaseUntil.value <= now
                            then old(rows)[id].(state := Unknown, reason := Some(Unconfirmed)) else old(rows)[id]
    {
      hide Legal;
      hide After;
      hide Initial;
      hide Next;
      hide Enabled;
      ghost var before := View();
      rows := map id | id in rows ::
        if rows[id].state.Sending? && rows[id].leaseUntil.Some? && rows[id].leaseUntil.value <= now
        then rows[id].(state := Unknown, reason := Some(Unconfirmed)) else rows[id];
      ExpiredInOneStep(before, rows, now);
      LogOwn(before, ExpireLeases(now));
    }

    /** Positive evidence is saved; anything else only changes the reason. */
    method SaveMatches(id: RowId, seen: Option<Text>, found: set<CommentId>, complete: bool)
      requires Valid() && found <= CommentsOn(calls, id)
      modifies this`rows, this`history, this`own
      ensures Valid() && old(history) <= history
      ensures old(id in rows && rows[id].state == Unknown && (|found| == 1 ==> rows[id].text == seen)) ==>
                own == old(own) + [Match(id, seen, found, complete)] && rows.Keys == old(rows.Keys) &&
                rows == old(rows)[id := rows[id]] &&
                (if |found| == 1
                 then rows[id].state == Delivered && rows[id].comment == Some(TheOnly(found)) && rows[id].reason == None
                 else rows[id].state == Unknown && rows[id].reason ==
                      Some(if |found| > 1 then MultipleMatches else if complete then Unconfirmed else ReconciliationIncomplete))
      ensures !old(id in rows && rows[id].state == Unknown && (|found| == 1 ==> rows[id].text == seen)) ==> Unmoved()
    {
      hide Legal;
      hide After;
      hide Initial;
      if id in rows && rows[id].state.Unknown? && (|found| == 1 ==> rows[id].text == seen) {
        ghost var before := View();
        if |found| == 1 {
          var c :| c in found;
          OnlyOne(found);
          rows := rows[id := rows[id].(state := Delivered, comment := Some(c), reason := None)];
        } else {
          rows := rows[id := rows[id].(reason := Some(
            if |found| > 1 then MultipleMatches else if complete then Unconfirmed else ReconciliationIncomplete))];
        }
        LogOwn(before, Match(id, seen, found, complete));
      }
    }

    /** The row was uncertain, or its lease had run out by then. */
    predicate Uncertain(row: Row, now: int) {
      row.state == Unknown || (row.state == Sending && row.leaseUntil.Some? && row.leaseUntil.value <= now)
    }

    /**
     * Reads GitHub and saves what it proves; it dispatches nothing and reopens nothing. Unless
     * it is aborted, every uncertain row is looked for.
     */
    method Reconcile(me: set<ReaderId>)
      requires Valid()
      modifies this
      ensures Valid() && old(history) <= history && old(own) <= own && old(others) <= others && (old(aborted) ==> aborted)
      ensures OnlyEvidence(old(own), own)
      ensures |own| > |old(own)| && own[|old(own)|].ExpireLeases?
      ensures !aborted ==>
                forall id :: id in old(rows) && Uncertain(old(rows)[id], own[|old(own)|].now) ==>
                  LookedFor(own, |old(own)|, others, |old(others)|, id)
    {
      hide Next;
      hide Enabled;
      hide Valid;
      hide Legal;
      hide After;
      hide CommentsOn;
      var now := ReadClock();
      ExpireOldLeases(now);
      Remember();
      ghost var past, o, p, expired := history, own, others, rows;
      Await({}, me);
      var listed := rows;
      forall id | id in expired && expired[id].state.Unknown?
        ensures (id in listed && listed[id].state.Unknown?) || LookedFor(own, |o|, others, |p|, id)
      {
        StillOrResolved(past, o, p, expired, id);
      }
      ghost var past', o', p' := history, own, others;
      Remember();
      Await({}, me);
      ReconcileKind(listed, Inline, me, past', o', p');
      ghost var own', others' := own, others;
      ReconcileKind(listed, Summary, me, past', o', p');
      LaterStill(own', |o'|, others', |p'|, own, |o'|, others, |p'|);
      LaterStill(own, |o'|, others, |p'|, own, |o|, others, |p|);
      LaterStill(o', |o|, p', |p|, own, |o|, others, |p|);
      LaterStill(own, |o|, others, |p|, own, |old(own)|, others, |old(others)|);
    }

    /** One kind of the rows listed, when o and p were the logs. */
    method ReconcileKind(listed: Rows, kind: Kind, me: set<ReaderId>,
                         ghost past: seq<Event>, ghost o: seq<Event>, ghost p: seq<Event>)
      requires Valid() && Recalled(past, o, p, listed) && OnlyEvidence(o, own)
      modifies this
      ensures Valid() && old(history) <= history && old(own) <= own && old(others) <= others && (old(aborted) ==> aborted)
      ensures OnlyEvidence(old(own), own)
      ensures !aborted ==>
                forall id :: id in listed && listed[id].state == Unknown && listed[id].kind == kind ==> LookedFor(own, |o|, others, |p|, id)
    {
      hide Valid;
      hide Legal;
      hide After;
      hide CommentsOn;
      var pending := set id | id in listed && listed[id].state.Unknown? && listed[id].kind == kind;
      ghost var all := pending;
      if pending == {} || aborted {
        return;
      }
      // What GitHub holds when the comments are listed; a partial listing shows a part of it.
      var onGitHub := calls;
      var complete: bool := *;
      while pending != {}
        invariant Valid() && old(history) <= history && old(own) <= own && old(others) <= others && (old(aborted) ==> aborted)
        invariant OnlyEvidence(old(own), own)
        invariant pending <= all <= listed.Keys
        invariant forall id :: CommentsOn(onGitHub, id) <= CommentsOn(calls, id)
        invariant forall id :: id in all - pending ==> LookedFor(own, |o|, others, |p|, id)
        decreases pending
      {
        var id :| id in pending;
        pending := pending - {id};
        assert {} <= CommentsOn(onGitHub, id);
        var found :| found <= CommentsOn(onGitHub, id);
        ghost var o', p' := own, others;
        LookFor(id, listed, found, complete, past, o, p);
        LaterStill(o', |o|, p', |p|, own, |o|, others, |p|);
        o', p' := own, others;
        Await({}, me);
        LaterStill(o', |o|, p', |p|, own, |o|, others, |p|);
      }
    }

    method LookFor(id: RowId, listed: Rows, found: set<CommentId>, complete: bool,
                   ghost past: seq<Event>, ghost o: seq<Event>, ghost p: seq<Event>)
      requires Valid() && Recalled(past, o, p, listed) && OnlyEvidence(o, own)
      requires id in listed && listed[id].state.Unknown? && found <= CommentsOn(calls, id)
      modifies this`rows, this`history, this`own
      ensures Valid() && old(history) <= history && OnlyEvidence(old(own), own)
      ensures LookedFor(own, |o|, others, |p|, id)
    {
      StillOrResolved(past, o, p, listed, id);
      SaveMatches(id, listed[id].text, found, complete);
      if own != old(own) {
        assert own[|old(own)|].Match?;
      }
    }

    // ---- deliverReviewPlan --------------------------------------------------------------

    method ListRows(reader: ReaderId)
      requires Valid()
      modifies this`sessions, this`history, this`own
      ensures Valid() && Did(Gate(reader))
    {
      hide Legal;
      hide After;
      hide Initial;
      ghost var before := View();
      sessions := sessions[reader := Session(AllInlineSettled(rows), rows)];
      LogOwn(before, Gate(reader));
    }

    /** The second listing, taken only after a fallback slot has been filled. */
    method ListAgain(reader: ReaderId)
      requires Valid() && reader in sessions && sessions[reader].passed
      requires NeedsLocationSummary(sessions[reader].view) && SummaryIds(rows) != {}
      modifies this`sessions, this`history, this`own
      ensures Valid() && Did(Reread(reader))
      ensures reader in sessions && sessions[reader] == old(sessions)[reader].(view := rows)
    {
      hide Legal;
      hide After;
      hide Initial;
      ghost var before := View();
      sessions := sessions[reader := sessions[reader].(view := rows)];
      LogOwn(before, Reread(reader));
    }

    /** Add the fallback slot under the job lock, unless there is a summary by now. */
    method AddSummaryRow(reader: ReaderId) returns (written: Written)
      requires Valid() && reader in sessions && sessions[reader].passed && NeedsLocationSummary(sessions[reader].view)
      modifies this`rows, this`history, this`own
      ensures Valid() && old(history) <= history && PostFree(old(own), own)
      ensures written.Stopped? <==> !(old(jobEligible) && old(repositoryActive))
      ensures !written.Stopped? ==> exists id :: id in rows && rows[id].kind == Summary
      ensures written.Applied? <==> old(jobEligible && repositoryActive && forall id :: id in rows ==> rows[id].kind != Summary)
      ensures written.Applied? ==>
                exists id :: id !in old(rows) && Did(AddSummary(reader, id)) &&
                  rows == old(rows)[id := Row(Summary, None, State.Waiting, 0, None, None, None, None, None, None)]
      ensures !written.Applied? ==> Unmoved()
    {
      hide Legal;
      hide After;
      hide Initial;
      if !jobEligible || !repositoryActive {
        return Stopped;
      }
      if SummaryIds(rows) != {} {
        var id :| id in SummaryIds(rows);
        return Missed;
      }
      assert forall id :: id in rows ==> id !in SummaryIds(rows);
      ghost var before := View();
      FreshExists(rows.Keys);
      var id: RowId :| id !in rows.Keys;
      rows := rows[id := NewSummary()];
      assert rows[id].kind == Summary;
      LogOwn(before, AddSummary(reader, id));
      return Applied;
    }

    method FreezeSummaryRow(reader: ReaderId, id: RowId) returns (written: Written)
      requires Valid() && reader in sessions && sessions[reader].passed
      requires id in SummaryIds(sessions[reader].view) && sessions[reader].view[id].state.Waiting?
      modifies this`rows, this`history, this`own
      ensures Valid()
      ensures written.Applied? <==> old(jobEligible && repositoryActive && id in rows && rows[id].state == Waiting)
      ensures written.Applied? ==>
                Did(FreezeSummary(reader, id)) &&
                rows == old(rows)[id := old(rows)[id].(state := Ready, text := Some(SummaryOf(sessions[reader].view)))]
      ensures !written.Applied? ==> Unmoved() && !Enabled(View(), FreezeSummary(reader, id))
      ensures written.Stopped? <==> !(old(jobEligible) && old(repositoryActive))
      ensures !written.Stopped? && id in rows ==> rows[id].state != Waiting
    {
      hide Legal;
      hide After;
      hide Initial;
      var body := SummaryOf(sessions[reader].view);
      if !jobEligible || !repositoryActive {
        return Stopped;
      }
      if id !in rows || !rows[id].state.Waiting? {
        return Missed;
      }
      ghost var before := View();
      rows := rows[id := rows[id].(state := Ready, text := Some(body))];
      LogOwn(before, FreezeSummary(reader, id));
      return Applied;
    }

    /** The last thing this service did was to record an answer that asks it to come back later. */
    ghost predicate RateLimitedLast()
      reads this`own
    {
      |own| >= 2 && own[|own| - 1].Record? && own[|own| - 2].Answer? && own[|own| - 2].reply.RateLimited?
    }

    /**
     * Send the listed inline rows one after another; an error of one send ends the delivery.
     * When none does, every row listed as READY has been taken up, unless others moved it.
     */
    method SendInline(listed: Rows, me: set<ReaderId>) returns (stop: Option<Delivery>)
      requires Valid() && listed == rows
      modifies this
      ensures Valid() && old(history) <= history && old(own) <= own && old(others) <= others && (old(aborted) ==> aborted)
      ensures stop.Some? ==> stop.value.Failed? || stop.value.Pending?
      ensures stop.None? ==>
                forall id :: id in listed && listed[id].kind == Inline && listed[id].state == Ready ==>
                  TakenUp(own, |old(own)|, others, |old(others)|, id)
      ensures stop == Some(Failed) ==> aborted || !jobEligible || !repositoryActive
      ensures stop == Some(Pending) ==> RateLimitedLast() || exists id :: MustWait(listed, id, clock)
    {
      hide Next;
      hide Enabled;
      hide Valid;
      hide Legal;
      hide After;
      ghost var past, o, p := history, own, others;
      Remember();
      var todo := InlineIds(listed);
      while todo != {}
        invariant Valid() && old(history) <= history && o <= own && p <= others && todo <= listed.Keys
        invariant old(aborted) ==> aborted
        invariant forall id :: id in todo ==> !MovedSince(own, |o|, id)
        invariant forall id :: id in InlineIds(listed) - todo && listed[id].state == Ready ==> TakenUp(own, |o|, others, |p|, id)
        decreases todo
      {
        var id :| id in todo;
        todo := todo - {id};
        FindingStays(past, o, p, listed, id);
        if listed[id].state.Ready? {
          StillOrMoved(past, o, p, listed, id);
        }
        ghost var o', p' := own, others;
        stop := SendOne(id, listed[id], me);
        if stop.Some? {
          assert !RateLimitedLast() && stop == Some(Pending) ==> MustWait(listed, id, clock);
          return;
        }
        LaterStill(o', |o|, p', |p|, own, |o|, others, |p|);
        LaterStill(own, |o'|, others, |p'|, own, |o|, others, |p|);
        o', p' := own, others;
        Await({}, me);
        LaterStill(o', |o|, p', |p|, own, |o|, others, |p|);
      }
      return None;
    }

    method SendOne(id: RowId, row: Row, me: set<ReaderId>) returns (stop: Option<Delivery>)
      requires Valid() && SameFinding(rows, id, row)
      modifies this
      ensures Valid() && old(history) <= history && old(own) <= own && old(others) <= others && (old(aborted) ==> aborted)
      ensures stop.Some? ==> stop.value.Failed? || stop.value.Pending?
      ensures OwnMovesOnly(id, |old(own)|) && SameListings(me)
      ensures row.state != Ready ==> Unmoved() && (stop.None? || stop == Some(Failed))
      ensures stop.None? && row.state == Ready ==>
                TakenUp(own, |old(own)|, others, |old(others)|, id) || !old(StillReady(id, row.text))
      ensures forall k :: |old(own)| <= k < |own| && own[k].Claim? ==>
                (exists j :: k < j < |own| && own[j] == Post(own[k].token)) ||
                aborted || !jobEligible || !repositoryActive || !Held(id, own[k].token)
      ensures stop == Some(Failed) ==> aborted || !jobEligible || !repositoryActive
      ensures stop == Some(Pending) ==> RateLimitedLast() || (MustWait(map[id := row], id, clock) && Unmoved())
    {
      hide Valid;
      hide ReceiptHolds;
      hide Next;
      hide Enabled;
      FreshExists(calls.Keys);
      var token: Token :| token !in calls.Keys;
      var outcome := Send(id, row, token, me);
      match outcome {
        case Aborted => return Some(Failed);
        case LockRefused => return Some(Failed);
        case BackingOff(_) => return Some(Pending);
        case Settled(reply, _) =>
          return if reply.RateLimited? && rows[id].state.Ready? then Some(Pending) else None;
        case _ => return None;
      }
    }

    /** Some row was seen backing off since, or the last answer of this service asked for it. */
    ghost predicate Deferred(since: nat)
      reads this`history, this`own, this`clock
    {
      || RateLimitedLast()
      || exists past, id :: |past| >= since && past <= history && Legal(start, past) && MustWait(After(start, past).rows, id, clock)
    }

    /** What was READY before has been taken up, or moved by others. */
    ghost predicate AllTaken(before: Rows, o: nat, p: nat)
      reads this`own, this`others
    {
      forall id :: id in before && before[id].kind == Inline && before[id].state == Ready ==> TakenUp(own, o, others, p, id)
    }

    /** The summary of the gate's listing has been taken up, or is out of the way, or others recorded a receipt. */
    ghost predicate SummaryTaken(reader: ReaderId, o: nat, p: nat)
      reads this`rows, this`sessions, this`own, this`others
    {
      reader in sessions && sessions[reader].passed && SummaryDone(sessions[reader].view, rows, own, o, others, p)
    }

    /**
     * One delivery run. It finishes only over a table in which every row is settled and
     * every outcome is true of GitHub; without a GitHub connection it changes nothing. It
     * stays pending only to wait for a retry time, or after taking up what was ready, and
     * past the gate the summary too; and it fails only for the reasons the code has.
     * identityOk and headMoved are what GitHub says of the posting account and the pull request.
     */
    method DeliverReviewPlan(connected: bool, identityOk: bool, headMoved: bool, reader: ReaderId) returns (d: Delivery)
      requires Valid()
      modifies this
      ensures Valid() && old(history) <= history && old(own) <= own && old(others) <= others
      ensures d.Finished? ==>
                d.report == ReportOf(rows) &&
                forall id :: id in rows ==>
                  rows[id].state in {State.Delivered, State.Rejected, State.Omitted, State.Unknown} && OutcomeTrue(calls, id, rows[id])
      ensures d.Finished? ==> AllTaken(old(rows), |old(own)|, |old(others)|)
      ensures d.Pending? ==>
                connected && (Deferred(|old(history)|) ||
                  (AllTaken(old(rows), |old(own)|, |old(others)|) && !AllSettled(rows) &&
                   (AllInlineSettled(rows) ==> SummaryTaken(reader, |old(own)|, |old(others)|))))
      ensures d.Failed? ==> !connected || !identityOk || aborted || !jobEligible || !repositoryActive
      ensures connected && identityOk && headMoved ==>
                own == old(own) || exists k :: |old(own)| <= k < |own| && own[k] == OmitOpen(HeadChanged)
      ensures own != old(own) ==> own[|old(own)|].ExpireLeases?
      ensures !connected ==> Unmoved() && (d.Finished? <==> AllSettled(rows) && !NeedsLocationSummary(rows))
    {
      hide Next;
      hide Enabled;
      hide Valid;
      hide NeedsLocationSummary;
      hide OutcomeTrue;
      OutcomesAreTrue();
      if (forall id :: id in rows ==> Terminal(rows[id].state)) && !NeedsLocationSummary(rows) {
        return Finished(ReportOf(rows));
      }
      if !connected && AllSettled(rows) && !NeedsLocationSummary(rows) {
        return Finished(ReportOf(rows));
      }
      if !connected {
        return Failed;
      }
      ghost var before, o, p := rows, |own|, |others|;
      var stop := SendFindings(identityOk, headMoved, reader);
      if stop.Some? {
        return stop.value;
      }
      WaitOn(before, o, p, reader);
      ghost var own', others' := own, others;
      stop := SendSummary(reader);
      LaterStill(own', o, others', p, own, o, others, p);
      if stop.Some? {
        Remember();
        return stop.value;
      }
      WaitOn(before, o, p, reader);
      OutcomesAreTrue();
      if !AllSettled(rows) {
        return Pending;
      }
      return Finished(ReportOf(rows));
    }

    /** An await of a delivery: what has been taken up stays so. */
    method WaitOn(ghost before: Rows, ghost o: nat, ghost p: nat, reader: ReaderId)
      requires Valid() && o <= |own| && p <= |others| && AllTaken(before, o, p)
      modifies this
      ensures Valid() && own == old(own) && old(history) <= history && old(others) <= others && (old(aborted) ==> aborted)
      ensures AllTaken(before, o, p)
      ensures old(SummaryTaken(reader, o, p)) ==> SummaryTaken(reader, o, p)
    {
      hide Next;
      hide Enabled;
      hide Valid;
      hide NeedsLocationSummary;
      ghost var past, others', sent := history, others, rows;
      Remember();
      Await({}, {reader});
      LaterStill(own, o, others', p, own, o, others, p);
      if old(SummaryTaken(reader, o, p)) {
        StillDone(sessions[reader].view, past, others', sent, o, p);
      }
    }

    /** The inline part of a delivery. */
    method SendFindings(identityOk: bool, headMoved: bool, reader: ReaderId) returns (stop: Option<Delivery>)
      requires Valid()
      modifies this
      ensures Valid() && old(history) <= history && old(own) <= own && old(others) <= others && (old(aborted) ==> aborted)
      ensures stop.Some? ==> stop.value.Failed? || stop.value.Pending?
      ensures stop == Some(Failed) ==> !identityOk || aborted || !jobEligible || !repositoryActive
      ensures stop == Some(Pending) ==> Deferred(|old(history)|)
      ensures stop.None? ==> AllTaken(old(rows), |old(own)|, |old(others)|)
      ensures |own| > |old(own)| && own[|old(own)|].ExpireLeases?
      ensures identityOk && headMoved ==> exists k :: |old(own)| <= k < |own| && own[k] == OmitOpen(HeadChanged)
    {
      hide Next;
      hide Enabled;
      hide Valid;
      ghost var past, o, p, before := history, own, others, rows;
      Remember();
      var failed := Prelude(identityOk, headMoved, {reader});
      if failed {
        return Some(Failed);
      }
      ReadyOrTaken(past, o, p, before);
      ghost var past', o', p', listed := history, own, others, rows;
      Remember();
      stop := SendInline(rows, {reader});
      LaterStill(o', |o|, p', |p|, own, |o|, others, |p|);
      LaterStill(own, |o'|, others, |p'|, own, |o|, others, |p|);
      if stop == Some(Pending) && !RateLimitedLast() {
        var id :| MustWait(listed, id, clock);
        assert MustWait(After(start, past').rows, id, clock);
      }
    }

    lemma StillDone(view: Rows, past: seq<Event>, others': seq<Event>, sent: Rows, o: nat, p: nat)
      requires Valid() && Recalled(past, own, others', sent) && o <= |own| && p <= |others'|
      requires SummaryDone(view, sent, own, o, others', p)
      ensures SummaryDone(view, rows, own, o, others, p)
    {
      LaterStill(own, o, others', p, own, o, others, p);
      forall id | id in SummaryIds(view) && id in sent && sent[id].state !in {State.Ready, State.Waiting}
        ensures (id in rows && rows[id].state !in {State.Ready, State.Waiting}) || RecordedSince(others, p)
      {
        OutOrRecorded(past, others', sent, id);
        LongerLog(others, others, |others'|, p, id);
      }
      if RecordedSince(others', p) {
        LongerLog(others', others, p, p, 0);
      }
    }

    lemma OutOrRecorded(past: seq<Event>, others': seq<Event>, sent: Rows, id: RowId)
      requires Valid() && Recalled(past, own, others', sent) && id in sent && sent[id].state !in {State.Ready, State.Waiting}
      ensures (id in rows && rows[id].state !in {State.Ready, State.Waiting}) || RecordedSince(others, |others'|)
    {
      var run := history[|past|..];
      assert past + run == history;
      AfterSplit(start, past, run);
      if forall k :: 0 <= k < |run| ==> !run[k].Record? {
        OutUntilRecorded(After(start, past), run, id);
      } else {
        var k :| 0 <= k < |run| && run[k].Record?;
        assert history[|past| + k] == run[k];
        SomebodyDid(history, own, others, past, own, others', |past| + k);
      }
    }

    /** A row that was READY is still as it was, or has been taken up or moved since. */
    lemma ReadyOrTaken(past: seq<Event>, o: seq<Event>, p: seq<Event>, before: Rows)
      requires Valid() && Recalled(past, o, p, before)
      requires forall k :: |o| <= k < |own| ==> own[k].ExpireLeases? || own[k].Match? || own[k].OmitOpen?
      ensures forall id :: id in before && before[id].state == Ready ==>
                (id in rows && rows[id] == before[id]) || TakenUp(own, |o|, others, |p|, id)
    {
      forall id | id in before && before[id].state == Ready
        ensures (id in rows && rows[id] == before[id]) || TakenUp(own, |o|, others, |p|, id)
      {
        StillOrMoved(past, o, p, before, id);
      }
    }

    lemma OutcomesAreTrue()
      requires Valid()
      ensures forall id :: id in rows ==> OutcomeTrue(calls, id, rows[id])
    {
      forall id | id in rows
        ensures OutcomeTrue(calls, id, rows[id])
      {
        AtMostOneComment(start, history, id);
      }
    }

    /** Reconcile, check the posting identity, and omit what a new head or the window has made stale. */
    method Prelude(identityOk: bool, headMoved: bool, me: set<ReaderId>) returns (failed: bool)
      requires Valid()
      modifies this
      ensures Valid() && old(history) <= history && old(own) <= own && old(others) <= others && (old(aborted) ==> aborted)
      ensures failed <==> !identityOk
      ensures |own| > |old(own)| && own[|old(own)|].ExpireLeases?
      ensures forall k :: |old(own)| <= k < |own| ==> own[k].ExpireLeases? || own[k].Match? || own[k].OmitOpen?
      ensures !failed ==>
                (headMoved <==> exists k :: |old(own)| <= k < |own| && own[k] == OmitOpen(HeadChanged))
    {
      hide Valid;
      Reconcile(me);
      if !identityOk {
        return true;
      }
      Await({}, me);
      ghost var o := own;
      OmitStale(headMoved, me);
      assert forall k :: |old(own)| <= k < |o| ==> !o[k].OmitOpen?;
      assert headMoved ==> own[|o|] == OmitOpen(HeadChanged);
      return false;
    }

    /** Omit what a new head or the end of the window has made stale. */
    method OmitStale(headMoved: bool, me: set<ReaderId>)
      requires Valid()
      modifies this
      ensures Valid() && old(history) <= history && old(others) <= others && (old(aborted) ==> aborted)
      ensures var head := if headMoved then [OmitOpen(HeadChanged)] else [];
              own == old(own) + head || own == old(own) + head + [OmitOpen(WindowExpired)]
    {
      hide Valid;
      hide Next;
      hide Enabled;
      if headMoved {
        OmitOpenRows(HeadChanged);
        Await({}, me);
      }
      var now := ReadClock();
      OmitIfExpired(now);
      Await({}, me);
    }

    method OmitIfExpired(now: int)
      requires Valid()
      modifies this`rows, this`history, this`own
      ensures Valid() && old(history) <= history
      ensures if now >= plan.createdAt + 86_400_000 then Did(OmitOpen(WindowExpired)) else Unmoved()
    {
      if now >= plan.createdAt + DELIVERY_WINDOW_MS {
        OmitOpenRows(WindowExpired);
      }
    }

    /**
     * Past the inline rows: freeze the summary once they are all settled, and send it. The
     * summary of the listing is taken up if it is READY then.
     */
    method SendSummary(reader: ReaderId) returns (stop: Option<Delivery>)
      requires Valid()
      modifies this
      ensures Valid() && old(history) <= history && old(own) <= own && old(others) <= others && (old(aborted) ==> aborted)
      ensures stop.Some? ==> stop.value.Failed? || stop.value.Pending?
      ensures stop == Some(Failed) ==> aborted || !jobEligible || !repositoryActive
      ensures stop == Some(Pending) ==> !AllInlineSettled(rows) || RateLimitedLast() || exists id :: MustWait(rows, id, clock)
      ensures stop.None? ==> SummaryTaken(reader, |old(own)|, |old(others)|)
    {
      hide Next;
      hide Enabled;
      hide Valid;
      hide NeedsLocationSummary;
      ghost var o, p := own, others;
      stop := ReadySummary(reader);
      if stop.Some? {
        return;
      }
      ghost var past, o', p', ready := history, own, others, rows;
      Remember();
      var view := sessions[reader].view;
      if SummaryIds(view) != {} {
        ghost var id :| id in SummaryIds(view);
        OneSummaryListed(reader, id);
      }
      Await({}, {reader});
      if SummaryIds(view) != {} {
        var id :| id in SummaryIds(view);
        StillNotWaiting(past, o', p', ready, id);
        OneSummaryListed(reader, id);
        o', p' := own, others;
        stop := SendOne(id, rows[id], {reader});
        LaterStill(own, |o'|, others, |p'|, own, |o|, others, |p|);
        if stop == Some(Pending) && !RateLimitedLast() {
          assert MustWait(rows, id, clock);
        }
      }
    }

    lemma StillNotWaiting(past: seq<Event>, o: seq<Event>, p: seq<Event>, listed: Rows, id: RowId)
      requires Valid() && Recalled(past, o, p, listed) && id in listed && listed[id].state != Waiting
      ensures id in rows && rows[id].state != Waiting
    {
      var run := history[|past|..];
      assert past + run == history;
      AfterSplit(start, past, run);
      NeverWaitsAgain(After(start, past), run, id);
    }

    /** A listing shows one summary row at most, and it is still in the table. */
    lemma OneSummaryListed(reader: ReaderId, id: RowId)
      requires Valid() && reader in sessions && id in SummaryIds(sessions[reader].view)
      ensures id in rows && forall i :: i in SummaryIds(sessions[reader].view) ==> i == id
      ensures rows[id].state == Waiting ==> sessions[reader].view[id].state == Waiting
    {
      ValidIsSafe();
      assert forall i :: i in SummaryIds(sessions[reader].view) ==> i in SummaryIds(rows);
    }

    method ReadySummary(reader: ReaderId) returns (stop: Option<Delivery>)
      requires Valid()
      modifies this
      ensures Valid() && old(history) <= history && PostFree(old(own), own)
      ensures old(others) <= others && (old(aborted) ==> aborted)
      ensures stop.Some? ==> stop.value.Failed? || stop.value.Pending?
      ensures stop == Some(Failed) ==> !jobEligible || !repositoryActive
      ensures stop == Some(Pending) ==> !AllInlineSettled(rows)
      ensures stop.None? ==>
                reader in sessions && sessions[reader].passed && !NeedsLocationSummary(sessions[reader].view) &&
                NoneWaiting(sessions[reader].view)
    {
      hide Valid;
      hide NeedsLocationSummary;
      hide Next;
      hide Enabled;
      var passed := PassGate(reader);
      if !passed {
        return Some(Pending);
      }
      Await({}, {reader});
      var refused := FillSlot(reader);
      if refused {
        return Some(Failed);
      }
      Await({}, {reader});
      refused := FreezeWaiting(reader);
      return if refused then Some(Failed) else None;
    }

    /** No summary of the listing is WAITING any more. */
    predicate NoneWaiting(view: Rows)
      reads this`rows
    {
      forall id :: id in SummaryIds(view) && id in rows ==> rows[id].state != Waiting
    }

    method PassGate(reader: ReaderId) returns (passed: bool)
      requires Valid()
      modifies this`sessions, this`history, this`own
      ensures Valid() && old(history) <= history && PostFree(old(own), own)
      ensures reader in sessions && sessions[reader].passed == passed && sessions[reader].view == rows
      ensures passed <==> forall id :: id in rows && rows[id].kind == Inline ==>
                rows[id].state in {State.Delivered, State.Rejected, State.Omitted, State.Unknown}
    {
      ListRows(reader);
      return sessions[reader].passed;
    }

    method FillSlot(reader: ReaderId) returns (refused: bool)
      requires Valid() && reader in sessions && sessions[reader].passed
      modifies this
      ensures Valid() && old(history) <= history && PostFree(old(own), own)
      ensures old(others) <= others && (old(aborted) ==> aborted)
      ensures refused ==> !jobEligible || !repositoryActive
      ensures !refused ==>
                reader in sessions && sessions[reader].passed && !NeedsLocationSummary(sessions[reader].view)
    {
      hide Next;
      hide Enabled;
      hide Valid;
      hide NeedsLocationSummary;
      hide SummaryIds;
      refused := false;
      if NeedsLocationSummary(sessions[reader].view) {
        var written := AddSummaryRow(reader);
        if written.Stopped? {
          return true;
        }
        ghost var past, o, p, filled := history, own, others, rows;
        Remember();
        HasSlot(filled);
        hide Recalled;
        Await({}, {reader});
        SlotStays(past, o, p, filled);
        SlotServes(rows);
        ListAgain(reader);
      }
    }

    lemma HasSlot(table: Rows)
      requires exists id :: id in table && table[id].kind == Summary
      ensures SummaryIds(table) != {}
    {
      var id :| id in table && table[id].kind == Summary;
      assert id in SummaryIds(table);
    }

    lemma SlotServes(table: Rows)
      requires SummaryIds(table) != {}
      ensures !NeedsLocationSummary(table)
    {
    }

    method FreezeWaiting(reader: ReaderId) returns (refused: bool)
      requires Valid() && reader in sessions && sessions[reader].passed
      modifies this`rows, this`history, this`own
      ensures Valid() && old(history) <= history && PostFree(old(own), own)
      ensures refused ==> !jobEligible || !repositoryActive
      ensures !refused ==> NoneWaiting(sessions[reader].view)
    {
      hide Next;
      hide Enabled;
      refused := false;
      var view := sessions[reader].view;
      var waiting := set i | i in SummaryIds(view) && view[i].state.Waiting?;
      if SummaryIds(view) != {} {
        ghost var id :| id in SummaryIds(view);
        OneSummaryListed(reader, id);
      }
      if waiting != {} {
        var id :| id in waiting;
        var written := FreezeSummaryRow(reader, id);
        refused := written.Stopped?;
      }
    }

    // ---- purgeRepositoryDeliveryPayloads ----------------------------------------------

    /** One transaction: open rows are omitted, claimed rows become uncertain. */
    method PurgeDisconnected()
      requires Valid()
      modifies this`rows, this`history, this`own
      ensures Valid() && Did(Purge)
      ensures rows.Keys == old(rows).Keys
      ensures forall id :: id in rows ==>
                rows[id] == if old(rows)[id].state in {State.Ready, State.Waiting}
                            then old(rows)[id].(state := State.Omitted, reason := Some(Disconnected))
                            else if old(rows)[id].state == Sending then old(rows)[id].(state := Unknown, reason := Some(Disconnected))
                            else old(rows)[id]
    {
      hide Legal;
      hide After;
      hide Initial;
      ghost var before := View();
      PurgeInTwoSteps(before);
      rows := OmitAllOpen(rows, Disconnected);
      rows := DoubtAllClaims(rows, Disconnected);
      LogOwn(before, Purge);
    }
  }
}
