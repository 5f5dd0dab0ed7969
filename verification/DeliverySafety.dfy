/**
 * Safety of comment delivery over every interleaving of workers, reconcilers, lease
 * expiry, disconnect purges, job stops and lost answers.
 */
module DeliverySafety {
  import opened Basics
  import opened DeliveryReport
  import opened DeliveryProtocol

  type Calls = map<Token, Call>

  // ---- the invariant -----------------------------------------------------------

  /** A send attempt that can no longer put anything on GitHub and has put nothing there. */
  predicate Spent(call: Call) {
    call.phase.Done? && (call.fate.NotSent? || call.fate.NotCreated?)
  }

  predicate CallOk(call: Call) {
    match call.phase
    case Claimed => call.fate.NotSent?
    case Cleared => call.fate.NotSent?
    case Posted => !call.fate.NotSent?
    case Answered(reply) => Truthful(reply, call.fate)
    case Done => true
  }

  ghost predicate AllSpent(calls: Calls, id: RowId) {
    forall t :: t in CallsOn(calls, id) ==> Spent(calls[t])
  }

  predicate Working(phase: Phase) {
    phase.Cleared? || phase.Posted? || phase.Answered?
  }

  /** The row is held by one attempt, named by its token; every other attempt on it is spent. */
  ghost predicate Held(calls: Calls, id: RowId, row: Row) {
    && row.token.Some? && row.token.value in CallsOn(calls, id)
    && (forall t :: t in CallsOn(calls, id) && t != row.token.value ==> Spent(calls[t]))
    && calls[row.token.value].text == row.text
    && (Working(calls[row.token.value].phase) ==> calls[row.token.value].allowed == row.attempts)
  }

  ghost predicate RowOk(calls: Calls, id: RowId, row: Row) {
    && row.attempts <= MAX_RATE_LIMIT_ATTEMPTS
    && row.attempts == |CallsOn(calls, id)|
    && match row.state {
         case Waiting => row.token.None? && AllSpent(calls, id) && row.attempts == 0
         case Ready => row.token.None? && AllSpent(calls, id) && row.attempts < MAX_RATE_LIMIT_ATTEMPTS
         case Rejected => AllSpent(calls, id)
         case Omitted => AllSpent(calls, id)
         case Sending => Held(calls, id, row)
         case Unknown => Held(calls, id, row)
         case Delivered =>
           Held(calls, id, row) && row.comment.Some? && calls[row.token.value].fate == Created(row.comment.value)
       }
  }

  ghost predicate CallsOk(w: World) {
    && (forall t :: t in w.calls ==> CallOk(w.calls[t]) && w.calls[t].row in w.rows)
    && DistinctComments(w.calls)
  }

  ghost predicate DistinctComments(calls: Calls) {
    forall t, u :: t in calls && u in calls && t != u && calls[t].fate.Created? && calls[u].fate.Created? ==>
      calls[t].fate.comment != calls[u].fate.comment
  }

  ghost predicate Inv(w: World) {
    && CallsOk(w)
    && (forall id :: id in w.rows ==> RowOk(w.calls, id, w.rows[id]))
  }

  lemma InitialInv(w: World)
    requires Initial(w)
    ensures Inv(w)
  {
  }

  // ---- one step ------------------------------------------------------------------

  /** How a row may change while no send attempt does anything. */
  predicate Moves(old_: Row, new_: Row) {
    && new_.attempts == old_.attempts && new_.token == old_.token && new_.kind == old_.kind
    && (|| (new_.state == old_.state && new_.comment == old_.comment && (new_.text == old_.text || old_.state.Ready?))
        || (Open(old_.state) && new_.state.Omitted?)
        || (old_.state.Sending? && new_.state.Unknown? && new_.text == old_.text)
        || (old_.state.Waiting? && new_.state.Ready?))
  }

  lemma {:induction false} RowsMove(w: World, w': World)
    requires Inv(w) && w'.calls == w.calls && w'.rows.Keys == w.rows.Keys
    requires forall id :: id in w.rows ==> Moves(w.rows[id], w'.rows[id])
    ensures Inv(w')
  {
    forall id | id in w'.rows
      ensures RowOk(w'.calls, id, w'.rows[id])
    {
      assert RowOk(w.calls, id, w.rows[id]) && Moves(w.rows[id], w'.rows[id]);
    }
  }

  predicate TouchesRowsOnly(e: Event) {
    e.OmitOpen? || e.OmitReady? || e.Upgrade? || e.ExpireLeases? || e.Purge? || e.FreezeSummary? ||
    e.StopJob? || e.Deactivate? || e.Activate? || e.Gate? || e.Reread?
  }

  lemma RowMoves(w: World, e: Event, id: RowId)
    requires Enabled(w, e) && TouchesRowsOnly(e) && id in w.rows
    ensures id in Next(w, e).rows && Moves(w.rows[id], Next(w, e).rows[id])
  {
  }

  lemma RowsOnlyStep(w: World, e: Event)
    requires Inv(w) && Enabled(w, e) && TouchesRowsOnly(e)
    ensures Inv(Next(w, e))
  {
    var w' := Next(w, e);
    forall id | id in w.rows
      ensures id in w'.rows && Moves(w.rows[id], w'.rows[id])
    {
      RowMoves(w, e, id);
    }
    assert w'.calls == w.calls && w'.rows.Keys == w.rows.Keys;
    RowsMove(w, w');
  }

  /** Changing one attempt leaves the verdict on every other row alone. */
  lemma OtherRow(calls: Calls, token: Token, call: Call, id: RowId, row: Row)
    requires RowOk(calls, id, row) && call.row != id && (token in calls ==> calls[token].row != id)
    ensures RowOk(calls[token := call], id, row)
  {
    assert CallsOn(calls[token := call], id) == CallsOn(calls, id);
  }

  lemma ClaimStep(w: World, e: Event)
    requires Inv(w) && Enabled(w, e) && e.Claim?
    ensures Inv(Next(w, e))
  {
    var w' := Next(w, e);
    assert RowOk(w.calls, e.id, w.rows[e.id]);
    var call := w'.calls[e.token];
    assert w'.calls == w.calls[e.token := call];
    assert CallsOn(w'.calls, e.id) == CallsOn(w.calls, e.id) + {e.token};
    assert RowOk(w'.calls, e.id, w'.rows[e.id]);
    forall id | id in w'.rows && id != e.id
      ensures RowOk(w'.calls, id, w'.rows[id])
    {
      assert RowOk(w.calls, id, w.rows[id]);
      OtherRow(w.calls, e.token, call, id, w.rows[id]);
    }
  }

  /** An attempt that is not spent may advance without disturbing the verdict on its row. */
  lemma AttemptRow(calls: Calls, token: Token, call: Call, row: Row)
    requires token in calls && !Spent(calls[token]) && RowOk(calls, calls[token].row, row)
    requires call.row == calls[token].row && call.text == calls[token].text
    requires Working(call.phase) ==> call.allowed == row.attempts
    requires calls[token].fate.Created? ==> call.fate == calls[token].fate
    ensures RowOk(calls[token := call], call.row, row)
    ensures row.token == Some(token)
  {
    assert token in CallsOn(calls, call.row);
    assert CallsOn(calls[token := call], call.row) == CallsOn(calls, call.row);
  }

  lemma AttemptCalls(w: World, token: Token, call: Call)
    requires CallsOk(w) && token in w.calls
    requires call.row == w.calls[token].row && CallOk(call)
    requires w.calls[token].fate.Created? ==> call.fate == w.calls[token].fate
    requires call.fate.Created? && !w.calls[token].fate.Created? ==> FreshComment(w, call.fate.comment)
    ensures CallsOk(w.(calls := w.calls[token := call]))
  {
  }

  lemma AttemptStep(w: World, token: Token, call: Call)
    requires Inv(w) && token in w.calls && !Spent(w.calls[token])
    requires call.row == w.calls[token].row && call.text == w.calls[token].text && CallOk(call)
    requires w.calls[token].fate.Created? ==> call.fate == w.calls[token].fate
    requires call.row in w.rows
    requires Working(call.phase) ==>
      call.allowed == w.rows[call.row].attempts ||
      (Working(w.calls[token].phase) && call.allowed == w.calls[token].allowed)
    requires call.fate.Created? && !w.calls[token].fate.Created? ==> FreshComment(w, call.fate.comment)
    ensures Inv(w.(calls := w.calls[token := call]))
  {
    var w' := w.(calls := w.calls[token := call]);
    AttemptCalls(w, token, call);
    forall id | id in w'.rows
      ensures RowOk(w'.calls, id, w'.rows[id])
    {
      assert RowOk(w.calls, id, w.rows[id]);
      if id != call.row {
        OtherRow(w.calls, token, call, id, w.rows[id]);
      } else {
        HolderAllowed(w.calls, token, w.rows[id]);
        AttemptRow(w.calls, token, call, w.rows[id]);
      }
    }
  }

  lemma HolderAllowed(calls: Calls, token: Token, row: Row)
    requires token in calls && !Spent(calls[token]) && RowOk(calls, calls[token].row, row)
    ensures Working(calls[token].phase) ==> calls[token].allowed == row.attempts
  {
  }

  /** An unspent attempt holds its row: it owns the receipt, or a reconciler has already delivered the row. */
  lemma HolderOwns(w: World, token: Token)
    requires Inv(w) && token in w.calls && !Spent(w.calls[token])
    ensures w.calls[token].row in w.rows
    ensures var row := w.rows[w.calls[token].row];
            row.token == Some(token) && row.text == w.calls[token].text &&
            (Unresolved(row.state) ||
            (row.state.Delivered? && row.comment.Some? && w.calls[token].fate == Created(row.comment.value)))
  {
  }

  lemma RecordStep(w: World, e: Event)
    requires Inv(w) && Enabled(w, e) && e.Record?
    ensures Inv(Next(w, e))
  {
    var w' := Next(w, e);
    var call := w.calls[e.token];
    var done := call.(phase := Done);
    HolderOwns(w, e.token);
    assert CallOk(call);
    forall id | id in w'.rows
      ensures RowOk(w'.calls, id, w'.rows[id])
    {
      assert RowOk(w.calls, id, w.rows[id]);
      if id != call.row {
        OtherRow(w.calls, e.token, done, id, w.rows[id]);
      } else {
        AttemptRow(w.calls, e.token, done, w.rows[id]);
        ReceiptRow(w, e);
      }
    }
  }

  /** The receipt for a truthful answer leaves the row in order. */
  lemma {:induction false} RecordedRow(plan: Plan, calls: Calls, id: RowId, row: Row, token: Token, reply: Reply, now: int)
    requires RowOk(calls, id, row) && Unresolved(row.state) && row.token == Some(token)
    requires calls[token].phase.Done? && Truthful(reply, calls[token].fate)
    ensures RowOk(calls, id, RecordRow(plan, row, reply, row.attempts, now))
  {
    hide BackoffUntil;
    if reply.Refused? || reply.RateLimited? {
      assert Spent(calls[token]);
      assert AllSpent(calls, id);
    }
  }

  lemma ReceiptRow(w: World, e: Event)
    requires Inv(w) && Enabled(w, e) && e.Record?
    ensures var call := w.calls[e.token]; RowOk(Next(w, e).calls, call.row, Next(w, e).rows[call.row])
  {
    var call := w.calls[e.token];
    var row := w.rows[call.row];
    var calls := w.calls[e.token := call.(phase := Done)];
    HolderOwns(w, e.token);
    assert RowOk(w.calls, call.row, row) && CallOk(call);
    AttemptRow(w.calls, e.token, call.(phase := Done), row);
    HolderAllowed(w.calls, e.token, row);
    hide Inv;
    hide RowOk;
    hide RecordRow;
    if OwnsReceipt(row, e.token, call.text) {
      RecordedRow(w.plan, calls, call.row, row, e.token, call.phase.reply, e.now);
    }
  }

  /** Comments found for an unresolved row can only be its holder's, so there is at most one. */
  lemma FoundIsHolders(w: World, id: RowId, found: set<CommentId>)
    requires Inv(w) && id in w.rows && Unresolved(w.rows[id].state) && found <= CommentsOn(w.calls, id)
    ensures |found| <= 1
    ensures |found| == 1 ==> w.calls[w.rows[id].token.value].fate == Created(TheOnly(found))
  {
    var row := w.rows[id];
    assert RowOk(w.calls, id, row);
    var call := w.calls[row.token.value];
    forall c | c in found
      ensures call.fate == Created(c)
    {
      var t :| t in w.calls && w.calls[t].row == id && w.calls[t].fate.Created? && w.calls[t].fate.comment == c;
      assert t in CallsOn(w.calls, id);
    }
    if found != {} {
      var c :| c in found;
      assert found == {c};
    }
  }

  lemma MatchStep(w: World, e: Event)
    requires Inv(w) && Enabled(w, e) && e.Match?
    ensures Inv(Next(w, e))
  {
    var w' := Next(w, e);
    FoundIsHolders(w, e.id, e.found);
    forall id | id in w'.rows
      ensures RowOk(w'.calls, id, w'.rows[id])
    {
      assert RowOk(w.calls, id, w.rows[id]);
    }
  }

  lemma AddSummaryStep(w: World, e: Event)
    requires Inv(w) && Enabled(w, e) && e.AddSummary?
    ensures Inv(Next(w, e))
  {
    var w' := Next(w, e);
    assert CallsOn(w.calls, e.id) == {};
    forall id | id in w'.rows
      ensures RowOk(w'.calls, id, w'.rows[id])
    {
      assert id != e.id ==> RowOk(w.calls, id, w.rows[id]);
    }
  }

  lemma OneAttemptStep(w: World, e: Event)
    requires Inv(w) && Enabled(w, e)
    requires e.Check? || e.Abandon? || e.Post? || e.GitHubCreates? || e.GitHubRefuses? || e.Answer?
    ensures Inv(Next(w, e))
  {
    var token := e.token;
    assert CallOk(w.calls[token]) && w.calls[token].row in w.rows;
    AttemptStep(w, token, Next(w, e).calls[token]);
  }

  /** Every event keeps the invariant. */
  lemma StepInv(w: World, e: Event)
    requires Inv(w) && Enabled(w, e)
    ensures Inv(Next(w, e))
  {
    if TouchesRowsOnly(e) {
      RowsOnlyStep(w, e);
    } else if e.Claim? {
      ClaimStep(w, e);
    } else if e.Record? {
      RecordStep(w, e);
    } else if e.Match? {
      MatchStep(w, e);
    } else if e.AddSummary? {
      AddSummaryStep(w, e);
    } else {
      OneAttemptStep(w, e);
    }
  }

  lemma {:induction false} RunInv(w: World, run: seq<Event>)
    requires Inv(w) && Legal(w, run)
    ensures Inv(After(w, run))
    decreases |run|
  {
    if run != [] {
      StepInv(w, run[0]);
      RunInv(Next(w, run[0]), run[1..]);
    }
  }
}
