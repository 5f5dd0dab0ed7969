/**
 * What the invariant buys over whole runs: one comment per row, true and final outcomes,
 * bounded work, and silence after a stop.
 */
module DeliveryTheorems {
  import opened Basics
  import opened DeliveryReport
  import opened DeliveryProtocol
  import opened DeliverySafety

  // ---- at most one comment, and outcomes that tell the truth ----------------------

  /** No POST of the row is waiting to be dispatched, on the wire, or accepted. */
  ghost predicate Quiet(calls: Calls, id: RowId) {
    forall t :: t in calls && calls[t].row == id ==>
      calls[t].phase.Done? && (calls[t].fate.NotSent? || calls[t].fate.NotCreated?)
  }

  ghost predicate AtMostOneCreated(calls: Calls, id: RowId) {
    forall t, u :: Creating(calls, id, t) && Creating(calls, id, u) ==> t == u
  }

  predicate Creating(calls: Calls, id: RowId, t: Token) {
    t in calls && calls[t].row == id && calls[t].fate.Created?
  }

  ghost predicate OutcomeTrue(calls: Calls, id: RowId, row: Row) {
    && |CommentsOn(calls, id)| <= 1
    && (Open(row.state) ==> row.token.None? && Quiet(calls, id))
    && (row.state.Delivered? ==> row.comment.Some? && CommentsOn(calls, id) == {row.comment.value})
    && (row.state.Rejected? || row.state.Omitted? ==> CommentsOn(calls, id) == {} && Quiet(calls, id))
  }

  lemma CommentsOfHolder(calls: Calls, id: RowId, row: Row)
    requires RowOk(calls, id, row)
    ensures AtMostOneCreated(calls, id)
    ensures OutcomeTrue(calls, id, row)
  {
    assert forall t :: Creating(calls, id, t) ==> t in CallsOn(calls, id) && !Spent(calls[t]);
    var all := CommentsOn(calls, id);
    forall c | c in all
      ensures row.token.Some? && row.token.value in CallsOn(calls, id) && calls[row.token.value].fate == Created(c)
    {
      var t :| t in calls && calls[t].row == id && calls[t].fate.Created? && calls[t].fate.comment == c;
      assert t in CallsOn(calls, id) && !Spent(calls[t]);
    }
    if all != {} {
      var c :| c in all;
      assert all == {c};
    }
    if row.state.Delivered? {
      assert row.token.value in CallsOn(calls, id);
      assert row.comment.value in all;
    }
    if AllSpent(calls, id) {
      forall t | t in calls && calls[t].row == id
        ensures Spent(calls[t])
      {
        assert t in CallsOn(calls, id);
      }
    }
  }

  /**
   * In every interleaving GitHub accepts at most one POST of a row; an open row has no
   * holder and no POST pending or accepted; DELIVERED, REJECTED and OMITTED are true.
   */
  lemma AtMostOneComment(w: World, run: seq<Event>, id: RowId)
    requires Initial(w) && Legal(w, run) && id in After(w, run).rows
    ensures OutcomeTrue(After(w, run).calls, id, After(w, run).rows[id])
    ensures AtMostOneCreated(After(w, run).calls, id)
  {
    InitialInv(w);
    RunInv(w, run);
    CommentsOfHolder(After(w, run).calls, id, After(w, run).rows[id]);
  }

  /** The several-matches branch of the reconciler is never taken. */
  lemma NeverSeveralMatches(w: World, run: seq<Event>, id: RowId, seen: Option<Text>, found: set<CommentId>, complete: bool)
    requires Initial(w) && Legal(w, run)
    requires Enabled(After(w, run), Match(id, seen, found, complete))
    ensures |found| <= 1
    ensures Next(After(w, run), Match(id, seen, found, complete)).rows[id].reason != Some(MultipleMatches)
  {
    InitialInv(w);
    RunInv(w, run);
    FoundIsHolders(After(w, run), id, found);
  }

  // ---- progress of a row -----------------------------------------------------------

  function StateRank(s: State): nat {
    match s
    case Waiting => 4
    case Sending => 3
    case Unknown => 2
    case Ready => 1
    case Delivered => 0
    case Rejected => 0
    case Omitted => 0
  }

  /** Attempts left first, then the state; it falls even across SENDING or UNKNOWN back to READY. */
  function Rank(row: Row): nat
    requires row.attempts <= MAX_RATE_LIMIT_ATTEMPTS
  {
    5 * (MAX_RATE_LIMIT_ATTEMPTS - row.attempts) + StateRank(row.state)
  }

  ghost predicate Descends(old_: Row, new_: Row)
    requires old_.attempts <= MAX_RATE_LIMIT_ATTEMPTS && new_.attempts <= MAX_RATE_LIMIT_ATTEMPTS
  {
    && Rank(new_) <= Rank(old_)
    && (new_.state != old_.state ==> Rank(new_) < Rank(old_))
    && (Terminal(old_.state) ==> new_.state == old_.state && new_.comment == old_.comment)
    && new_.kind == old_.kind
  }

  lemma MovesDescends(old_: Row, new_: Row)
    requires Moves(old_, new_) && old_.attempts <= MAX_RATE_LIMIT_ATTEMPTS
    ensures Descends(old_, new_)
  {
  }

  lemma RecordRowDescends(plan: Plan, row: Row, reply: Reply, allowed: nat, now: int)
    requires Unresolved(row.state) && row.attempts <= MAX_RATE_LIMIT_ATTEMPTS
    ensures RecordRow(plan, row, reply, allowed, now).attempts == row.attempts
    ensures Descends(row, RecordRow(plan, row, reply, allowed, now))
  {
  }

  lemma SameDescends(row: Row)
    requires row.attempts <= MAX_RATE_LIMIT_ATTEMPTS
    ensures Descends(row, row)
  {
  }

  lemma {:induction false} ReceiptDescends(w: World, e: Event)
    requires Inv(w) && Enabled(w, e) && e.Record?
    ensures var id := w.calls[e.token].row;
            w.rows[id].attempts <= MAX_RATE_LIMIT_ATTEMPTS && Next(w, e).rows[id].attempts == w.rows[id].attempts &&
            Descends(w.rows[id], Next(w, e).rows[id])
  {
    var call := w.calls[e.token];
    var row := w.rows[call.row];
    assert RowOk(w.calls, call.row, row) && CallOk(call);
    hide Inv;
    hide RecordRow;
    hide Descends;
    SameDescends(row);
    if OwnsReceipt(row, e.token, call.text) {
      RecordRowDescends(w.plan, row, call.phase.reply, call.allowed, e.now);
    }
  }

  /** Every event but these four either moves rows as Moves allows or leaves them alone. */
  lemma OtherEventsMove(w: World, e: Event, id: RowId)
    requires Enabled(w, e) && id in w.rows && !TouchesRowsOnly(e)
    requires (e.Claim? || e.Match?) ==> e.id != id
    requires e.Record? ==> w.calls[e.token].row != id
    ensures id in Next(w, e).rows && Next(w, e).rows[id] == w.rows[id]
  {
  }

  lemma RowDescends(w: World, e: Event, id: RowId)
    requires Inv(w) && Enabled(w, e) && id in w.rows
    ensures id in Next(w, e).rows
    ensures RowOk(w.calls, id, w.rows[id]) && RowOk(Next(w, e).calls, id, Next(w, e).rows[id])
    ensures Descends(w.rows[id], Next(w, e).rows[id])
  {
    StepInv(w, e);
    assert RowOk(w.calls, id, w.rows[id]);
    if TouchesRowsOnly(e) {
      RowMoves(w, e, id);
      MovesDescends(w.rows[id], Next(w, e).rows[id]);
    } else if e.Record? && w.calls[e.token].row == id {
      ReceiptDescends(w, e);
    } else if (e.Claim? || e.Match?) && e.id == id {
      assert id in Next(w, e).rows;
    } else {
      OtherEventsMove(w, e, id);
    }
    assert id in Next(w, e).rows;
  }

  /** No step leaves DELIVERED, REJECTED or OMITTED, nor changes the comment recorded with them. */
  lemma {:induction false} OutcomesAreFinal(w: World, run: seq<Event>, id: RowId)
    requires Inv(w) && Legal(w, run) && id in w.rows && Terminal(w.rows[id].state)
    ensures id in After(w, run).rows
    ensures After(w, run).rows[id].state == w.rows[id].state
    ensures After(w, run).rows[id].comment == w.rows[id].comment
    decreases |run|
  {
    if run != [] {
      RowDescends(w, run[0], id);
      StepInv(w, run[0]);
      OutcomesAreFinal(Next(w, run[0]), run[1..], id);
    }
  }

  /** How often the row changes state along a run. */
  ghost function Changes(w: World, run: seq<Event>, id: RowId): nat
    requires Legal(w, run)
    decreases |run|
  {
    if run == [] then 0
    else
      (if id in w.rows && id in Next(w, run[0]).rows && Next(w, run[0]).rows[id].state != w.rows[id].state then 1 else 0)
      + Changes(Next(w, run[0]), run[1..], id)
  }

  const MAX_CHANGES := 19

  lemma {:induction false} ChangesBounded(w: World, run: seq<Event>, id: RowId)
    requires Inv(w) && Legal(w, run)
    ensures id in w.rows ==> RowOk(w.calls, id, w.rows[id]) && Changes(w, run, id) <= Rank(w.rows[id]) <= MAX_CHANGES
    ensures Changes(w, run, id) <= MAX_CHANGES
    decreases |run|
  {
    if id in w.rows {
      assert RowOk(w.calls, id, w.rows[id]);
    }
    if run != [] {
      StepInv(w, run[0]);
      if id in w.rows {
        RowDescends(w, run[0], id);
      }
      ChangesBounded(Next(w, run[0]), run[1..], id);
    }
  }

  ghost function TotalChanges(w: World, run: seq<Event>, ids: set<RowId>): nat
    requires Legal(w, run)
  {
    if ids == {} then 0
    else
      var id :| id in ids;
      Changes(w, run, id) + TotalChanges(w, run, ids - {id})
  }

  lemma {:induction false} TotalBounded(w: World, run: seq<Event>, ids: set<RowId>)
    requires Inv(w) && Legal(w, run)
    ensures TotalChanges(w, run, ids) <= MAX_CHANGES * |ids|
  {
    if ids != {} {
      var id :| id in ids && TotalChanges(w, run, ids) == Changes(w, run, id) + TotalChanges(w, run, ids - {id});
      ChangesBounded(w, run, id);
      TotalBounded(w, run, ids - {id});
    }
  }

  // ---- POSTs per row -----------------------------------------------------------------

  predicate PostsRow(w: World, e: Event, id: RowId) {
    e.Post? && e.token in w.calls && w.calls[e.token].row == id
  }

  ghost function PostsOn(w: World, run: seq<Event>, id: RowId): nat
    requires Legal(w, run)
    decreases |run|
  {
    if run == [] then 0
    else (if PostsRow(w, run[0], id) then 1 else 0) + PostsOn(Next(w, run[0]), run[1..], id)
  }

  function SentOn(calls: Calls, id: RowId): set<Token> {
    set t | t in calls && calls[t].row == id && !calls[t].fate.NotSent?
  }

  predicate SentBy(calls: Calls, t: Token, id: RowId) {
    t in calls && calls[t].row == id && !calls[t].fate.NotSent?
  }

  /** A call counts as sent from the step of its POST on. */
  lemma CallStep(w: World, e: Event, t: Token, id: RowId)
    requires Enabled(w, e)
    ensures SentBy(Next(w, e).calls, t, id) <==> SentBy(w.calls, t, id) || (PostsRow(w, e, id) && t == e.token)
  {
  }

  lemma SentStep(w: World, e: Event, id: RowId)
    requires Inv(w) && Enabled(w, e)
    ensures |SentOn(Next(w, e).calls, id)| == |SentOn(w.calls, id)| + (if PostsRow(w, e, id) then 1 else 0)
  {
    var w' := Next(w, e);
    assert e.Post? ==> CallOk(w.calls[e.token]);
    hide Inv;
    hide Next;
    forall t
      ensures t in SentOn(w'.calls, id) <==> t in SentOn(w.calls, id) || (PostsRow(w, e, id) && t == e.token)
    {
      CallStep(w, e, t, id);
    }
    if PostsRow(w, e, id) {
      assert e.token !in SentOn(w.calls, id);
      assert SentOn(w'.calls, id) == SentOn(w.calls, id) + {e.token};
    } else {
      assert SentOn(w'.calls, id) == SentOn(w.calls, id);
    }
  }

  lemma {:induction false} PostsAreSent(w: World, run: seq<Event>, id: RowId)
    requires Inv(w) && Legal(w, run)
    ensures PostsOn(w, run, id) + |SentOn(w.calls, id)| == |SentOn(After(w, run).calls, id)|
    decreases |run|
  {
    if run != [] {
      SentStep(w, run[0], id);
      StepInv(w, run[0]);
      PostsAreSent(Next(w, run[0]), run[1..], id);
    }
  }

  lemma Subset(a: set<Token>, b: set<Token>)
    requires a <= b
    ensures |a| <= |b|
  {
    if a != {} {
      var t :| t in a;
      Subset(a - {t}, b - {t});
    }
  }

  /**
   * Bounded work: a run makes at most 19 state changes per row it ends with, and sends
   * at most three POSTs of any row.
   */
  lemma BoundedWork(w: World, run: seq<Event>)
    requires Initial(w) && Legal(w, run)
    ensures TotalChanges(w, run, After(w, run).rows.Keys) <= 19 * |After(w, run).rows|
    ensures forall id :: id in After(w, run).rows ==> PostsOn(w, run, id) <= 3
  {
    InitialInv(w);
    TotalBounded(w, run, After(w, run).rows.Keys);
    forall id | id in After(w, run).rows
      ensures PostsOn(w, run, id) <= MAX_RATE_LIMIT_ATTEMPTS
    {
      RunInv(w, run);
      PostsAreSent(w, run, id);
      assert SentOn(w.calls, id) == {};
      var w' := After(w, run);
      assert RowOk(w'.calls, id, w'.rows[id]);
      Subset(SentOn(w'.calls, id), CallsOn(w'.calls, id));
    }
  }

  // ---- after a stop --------------------------------------------------------------------

  /** The job is terminal or the repository inactive, in this world and at every step of the run. */
  ghost predicate StaysStopped(w: World, run: seq<Event>)
    requires Legal(w, run)
    decreases |run|
  {
    (!w.jobEligible || !w.repositoryActive) && (run != [] ==> StaysStopped(Next(w, run[0]), run[1..]))
  }

  /** A worker past the second lock check that has not dispatched its POST yet. */
  function ClearedOn(calls: Calls, id: RowId): set<Token> {
    set t | t in calls && calls[t].row == id && calls[t].phase.Cleared?
  }

  ghost predicate EntersSending(w: World, e: Event, id: RowId)
    requires Enabled(w, e)
  {
    id in Next(w, e).rows && Next(w, e).rows[id].state.Sending? && !(id in w.rows && w.rows[id].state.Sending?)
  }

  lemma {:induction false} StoppedRows(w: World, e: Event, id: RowId)
    requires Inv(w) && Enabled(w, e) && (!w.jobEligible || !w.repositoryActive)
    ensures !EntersSending(w, e, id)
  {
    if id in w.rows {
      if TouchesRowsOnly(e) {
        RowMoves(w, e, id);
      } else if e.Record? && w.calls[e.token].row == id {
      } else if !(e.Match? && e.id == id) {
        OtherEventsMove(w, e, id);
      }
    }
  }

  lemma StoppedCalls(w: World, e: Event, id: RowId)
    requires Enabled(w, e) && (!w.jobEligible || !w.repositoryActive)
    ensures ClearedOn(Next(w, e).calls, id) <= ClearedOn(w.calls, id)
    ensures PostsRow(w, e, id) ==>
              e.token in ClearedOn(w.calls, id) && e.token !in ClearedOn(Next(w, e).calls, id)
  {
    if TouchesRowsOnly(e) {
      assert Next(w, e).calls == w.calls;
    }
  }

  lemma {:induction false} StoppedStep(w: World, e: Event, id: RowId)
    requires Inv(w) && Enabled(w, e) && (!w.jobEligible || !w.repositoryActive)
    ensures !EntersSending(w, e, id)
    ensures ClearedOn(Next(w, e).calls, id) <= ClearedOn(w.calls, id)
    ensures PostsRow(w, e, id) ==>
              e.token in ClearedOn(w.calls, id) && e.token !in ClearedOn(Next(w, e).calls, id)
  {
    StoppedRows(w, e, id);
    StoppedCalls(w, e, id);
  }

  lemma OneCleared(w: World, id: RowId)
    requires Inv(w)
    ensures |ClearedOn(w.calls, id)| <= 1
  {
    if t :| t in ClearedOn(w.calls, id) {
      HolderOwns(w, t);
      assert ClearedOn(w.calls, id) == {t} by {
        forall u | u in ClearedOn(w.calls, id)
          ensures u == t
        {
          HolderOwns(w, u);
        }
      }
    }
  }

  /** Every step of a stopped run keeps rows out of SENDING. */
  lemma {:induction false} NoSendingAfterStop(w: World, run: seq<Event>, k: nat, id: RowId)
    requires Inv(w) && Legal(w, run) && StaysStopped(w, run) && k < |run|
    ensures Legal(w, run[..k]) && Enabled(After(w, run[..k]), run[k])
    ensures !EntersSending(After(w, run[..k]), run[k], id)
    decreases |run|
  {
    if k == 0 {
      StoppedStep(w, run[0], id);
    } else {
      StepInv(w, run[0]);
      NoSendingAfterStop(Next(w, run[0]), run[1..], k - 1, id);
      assert run[..k][1..] == run[1..][..k - 1];
    }
  }

  /** The only POSTs still dispatched after a stop are of workers already cleared, one per row at most. */
  lemma {:induction false} PostsAfterStop(w: World, run: seq<Event>, id: RowId)
    requires Inv(w) && Legal(w, run) && StaysStopped(w, run)
    ensures PostsOn(w, run, id) + |ClearedOn(After(w, run).calls, id)| <= |ClearedOn(w.calls, id)| <= 1
    decreases |run|
  {
    hide Enabled;
    hide Next;
    hide Inv;
    OneCleared(w, id);
    if run != [] {
      StoppedStep(w, run[0], id);
      StepInv(w, run[0]);
      PostsAfterStop(Next(w, run[0]), run[1..], id);
      var now, next := ClearedOn(w.calls, id), ClearedOn(Next(w, run[0]).calls, id);
      if PostsRow(w, run[0], id) {
        Subset(next + {run[0].token}, now);
      } else {
        Subset(next, now);
      }
    }
  }

  lemma {:induction false} LatePostsWereCleared(w: World, run: seq<Event>, k: nat)
    requires Inv(w) && Legal(w, run) && StaysStopped(w, run) && k < |run| && run[k].Post?
    ensures run[k].token in w.calls && w.calls[run[k].token].phase.Cleared?
    decreases |run|
  {
    if k > 0 {
      StepInv(w, run[0]);
      LatePostsWereCleared(Next(w, run[0]), run[1..], k - 1);
      var call := Next(w, run[0]).calls[run[k].token];
      StoppedStep(w, run[0], call.row);
      assert run[k].token in ClearedOn(Next(w, run[0]).calls, call.row);
    }
  }
}
