/**
 * The summary comment of a plan: there is at most one row for it, its text is frozen
 * once after a listing in which every inline row was settled, and the outcome figures
 * in it are never overtaken by what later becomes true.
 */
module DeliverySummary {
  import opened Basics
  import opened DeliveryReport
  import opened DeliveryProtocol
  import opened DeliverySafety
  import opened DeliveryTrace
  import opened DeliveryTheorems

  // ---- at most one summary row --------------------------------------------------

  ghost predicate OneSummary(rows: Rows) {
    forall i, j :: i in SummaryIds(rows) && j in SummaryIds(rows) ==> i == j
  }

  /** A listing taken earlier: the same inline rows, every outcome in it still stands, and no row waits again. */
  ghost predicate Earlier(view: Rows, rows: Rows) {
    && InlineIds(view) == InlineIds(rows)
    && (forall id :: id in view ==>
          id in rows && rows[id].kind == view[id].kind && (Terminal(view[id].state) ==> rows[id].state == view[id].state) &&
          (rows[id].state.Waiting? ==> view[id].state.Waiting?))
  }

  /** The frozen outcome figures are still lower bounds on the true ones. */
  predicate FiguresHold(text: Text, rows: Rows) {
    text.SummaryText? ==>
      && text.figures.expected == |InlineIds(rows)|
      && text.figures.delivered <= Count(rows, Delivered)
      && text.figures.rejected <= Count(rows, Rejected)
      && text.figures.omitted <= Count(rows, Omitted)
  }

  ghost predicate SummaryInv(w: World) {
    && OneSummary(w.rows)
    && (forall r :: r in w.sessions ==> Earlier(w.sessions[r].view, w.rows))
    && (forall id :: id in w.rows && w.rows[id].kind.Summary? ==> SummaryRowOk(w, w.rows[id]))
  }

  ghost predicate SummaryRowOk(w: World, row: Row) {
    && (row.state.Waiting? ==> row.text.None?)
    && (row.text.None? ==> row.state.Waiting? || row.state.Omitted?)
    && (row.text.Some? && w.plan.currentRendering ==> row.text.value.SummaryText?)
    && (row.text.Some? ==> FiguresHold(row.text.value, w.rows) || !w.plan.currentRendering)
  }

  /** Kinds and outcomes survive a step, and the inline rows are fixed. */
  lemma RowsGrow(w: World, e: Event)
    requires Inv(w) && Enabled(w, e)
    ensures Earlier(w.rows, Next(w, e).rows)
  {
    var w' := Next(w, e);
    forall id | id in w.rows
      ensures id in w'.rows && w'.rows[id].kind == w.rows[id].kind
      ensures Terminal(w.rows[id].state) ==> w'.rows[id].state == w.rows[id].state
      ensures w'.rows[id].state.Waiting? ==> w.rows[id].state.Waiting?
    {
      RowDescends(w, e, id);
      WaitingStep(w, e, id);
    }
    forall id | id in w'.rows && id !in w.rows
      ensures w'.rows[id].kind.Summary?
    {
      NewRowsAreSummaries(w, e, id);
    }
  }

  lemma {:induction false} NewRowsAreSummaries(w: World, e: Event, id: RowId)
    requires Inv(w) && Enabled(w, e) && id in Next(w, e).rows && id !in w.rows
    ensures e.AddSummary? && e.id == id && Next(w, e).rows[id] == NewSummary()
  {
    if !e.AddSummary? {
      KeysKept(w, e);
    }
  }

  lemma KeysKept(w: World, e: Event)
    requires Inv(w) && Enabled(w, e) && !e.AddSummary?
    ensures Next(w, e).rows.Keys == w.rows.Keys
  {
    hide Inv;
    hide OmitIfOpen;
    hide ExpireRow;
    hide PurgeRow;
    hide RecordRow;
    hide MatchRow;
    hide SummaryOf;
    hide AllInlineSettled;
  }

  lemma EarlierTransitive(a: Rows, b: Rows, c: Rows)
    requires Earlier(a, b) && Earlier(b, c)
    ensures Earlier(a, c)
  {
  }

  lemma CountGrows(view: Rows, rows: Rows, s: State)
    requires Earlier(view, rows) && Terminal(s)
    ensures Count(view, s) <= Count(rows, s)
  {
    forall id | id in InState(view, s)
      ensures id in InState(rows, s)
    {
    }
    Subset(InState(view, s), InState(rows, s));
  }

  lemma FiguresKept(text: Text, rows: Rows, rows': Rows)
    requires FiguresHold(text, rows) && Earlier(rows, rows')
    ensures FiguresHold(text, rows')
  {
    CountGrows(rows, rows', Delivered);
    CountGrows(rows, rows', Rejected);
    CountGrows(rows, rows', Omitted);
  }

  lemma FrozenFigures(view: Rows, rows: Rows)
    requires Earlier(view, rows)
    ensures FiguresHold(SummaryOf(view), rows)
  {
    CountGrows(view, rows, Delivered);
    CountGrows(view, rows, Rejected);
    CountGrows(view, rows, Omitted);
  }

  /** How a summary row and its text may change in one step. */
  ghost predicate TextMoves(w: World, e: Event, old_: Row, new_: Row) {
    || (new_.text == old_.text && (new_.state.Waiting? <==> old_.state.Waiting?))
    || (new_.text == old_.text && old_.state.Waiting? && new_.state.Omitted?)
    || (e.Upgrade? && !w.plan.currentRendering && old_.state.Ready? && new_.state.Ready? && new_.text.Some?)
    || (e.FreezeSummary? && e.reader in w.sessions && old_.state.Waiting? && new_.state.Ready? &&
        new_.text == Some(SummaryOf(w.sessions[e.reader].view)))
  }

  lemma TextStep(w: World, e: Event, id: RowId)
    requires Inv(w) && Enabled(w, e) && id in w.rows
    ensures id in Next(w, e).rows && TextMoves(w, e, w.rows[id], Next(w, e).rows[id])
  {
    if e.Record? && w.calls[e.token].row == id {
      HolderOwns(w, e.token);
    } else if TouchesRowsOnly(e) {
      TextOfBulk(w, e, id);
    } else if !((e.Claim? || e.Match?) && e.id == id) {
      OtherEventsMove(w, e, id);
    }
  }

  lemma TextOfBulk(w: World, e: Event, id: RowId)
    requires Enabled(w, e) && id in w.rows && TouchesRowsOnly(e)
    ensures id in Next(w, e).rows && TextMoves(w, e, w.rows[id], Next(w, e).rows[id])
  {
  }

  lemma StepSessions(w: World, e: Event, r: ReaderId)
    requires Enabled(w, e) && r in Next(w, e).sessions
    ensures (r in w.sessions && Next(w, e).sessions[r] == w.sessions[r]) ||
            ((e.Gate? || e.Reread?) && e.reader == r && Next(w, e).sessions[r].view == w.rows && Next(w, e).rows == w.rows)
  {
    if !e.Gate? && !e.Reread? {
      assert Next(w, e).sessions == w.sessions;
    }
  }

  lemma StepOneSummary(w: World, e: Event)
    requires Inv(w) && OneSummary(w.rows) && Enabled(w, e)
    ensures OneSummary(Next(w, e).rows)
  {
    RowsGrow(w, e);
    forall i | i in SummaryIds(Next(w, e).rows)
      ensures i in SummaryIds(w.rows) || (e.AddSummary? && i == e.id && SummaryIds(w.rows) == {})
    {
      if i !in w.rows {
        NewRowsAreSummaries(w, e, i);
      }
    }
  }

  lemma StepViews(w: World, e: Event)
    requires Inv(w) && SummaryInv(w) && Enabled(w, e)
    ensures forall r :: r in Next(w, e).sessions ==> Earlier(Next(w, e).sessions[r].view, Next(w, e).rows)
  {
    RowsGrow(w, e);
    forall r | r in Next(w, e).sessions
      ensures Earlier(Next(w, e).sessions[r].view, Next(w, e).rows)
    {
      StepSessions(w, e, r);
      if r in w.sessions && Next(w, e).sessions[r] == w.sessions[r] {
        EarlierTransitive(w.sessions[r].view, w.rows, Next(w, e).rows);
      }
    }
  }

  lemma OutcomeKept(a: Rows, b: Rows, id: RowId)
    requires Earlier(a, b) && id in a
    ensures id in b && (Terminal(a[id].state) ==> b[id].state == a[id].state)
  {
  }

  lemma PlanKept(w: World, e: Event)
    requires Enabled(w, e)
    ensures Next(w, e).plan == w.plan
  {
  }

  lemma StepSummaryRow(w: World, e: Event, id: RowId)
    requires Inv(w) && SummaryInv(w) && Enabled(w, e) && id in w.rows && w.rows[id].kind.Summary?
    ensures id in Next(w, e).rows && SummaryRowOk(Next(w, e), Next(w, e).rows[id])
  {
    hide Inv;
    hide Next;
    hide Enabled;
    hide Earlier;
    hide FiguresHold;
    hide SummaryOf;
    var w' := Next(w, e);
    PlanKept(w, e);
    RowsGrow(w, e);
    OutcomeKept(w.rows, w'.rows, id);
    TextStep(w, e, id);
    assert SummaryRowOk(w, w.rows[id]);
    if w.rows[id].text.Some? && w.plan.currentRendering {
      FiguresKept(w.rows[id].text.value, w.rows, w'.rows);
    }
    if e.FreezeSummary? && e.reader in w.sessions {
      EarlierTransitive(w.sessions[e.reader].view, w.rows, w'.rows);
      FrozenFigures(w.sessions[e.reader].view, w'.rows);
      SummaryOfIsSummary(w.sessions[e.reader].view);
    }
  }

  lemma SummaryOfIsSummary(rows: Rows)
    ensures SummaryOf(rows).SummaryText?
  {
  }

  lemma StepSummary(w: World, e: Event)
    requires Inv(w) && SummaryInv(w) && Enabled(w, e)
    ensures SummaryInv(Next(w, e))
  {
    StepOneSummary(w, e);
    StepViews(w, e);
    RowsGrow(w, e);
    forall id | id in Next(w, e).rows && Next(w, e).rows[id].kind.Summary?
      ensures SummaryRowOk(Next(w, e), Next(w, e).rows[id])
    {
      if id in w.rows {
        StepSummaryRow(w, e, id);
      } else {
        NewRowsAreSummaries(w, e, id);
      }
    }
  }

  lemma {:induction false} RunSummary(w: World, run: seq<Event>)
    requires Inv(w) && SummaryInv(w) && Legal(w, run)
    ensures SummaryInv(After(w, run))
    decreases |run|
  {
    if run != [] {
      StepSummary(w, run[0]);
      StepInv(w, run[0]);
      RunSummary(Next(w, run[0]), run[1..]);
    }
  }

  lemma {:induction false} PlanIsFixed(w: World, run: seq<Event>)
    requires Legal(w, run)
    ensures After(w, run).plan == w.plan
    decreases |run|
  {
    if run != [] {
      PlanIsFixed(Next(w, run[0]), run[1..]);
    }
  }

  /** A plan never has two summary rows, and what its frozen summary claims stays covered by the truth. */
  lemma SummaryIsHonest(w: World, run: seq<Event>, id: RowId)
    requires Initial(w) && Legal(w, run) && w.plan.currentRendering
    requires id in SummaryIds(After(w, run).rows)
    ensures SummaryIds(After(w, run).rows) == {id}
    ensures var row := After(w, run).rows[id];
            row.text.Some? ==>
              row.text.value.SummaryText? &&
              row.text.value.figures.expected == |InlineIds(After(w, run).rows)| &&
              row.text.value.figures.delivered <= Count(After(w, run).rows, Delivered) &&
              row.text.value.figures.rejected <= Count(After(w, run).rows, Rejected) &&
              row.text.value.figures.omitted <= Count(After(w, run).rows, Omitted)
  {
    InitialInv(w);
    assert SummaryInv(w) by {
      forall i | i in w.rows && w.rows[i].kind.Summary?
        ensures SummaryRowOk(w, w.rows[i])
      {
        assert FreshRow(w.rows[i]);
      }
    }
    RunSummary(w, run);
    PlanIsFixed(w, run);
    var w' := After(w, run);
    assert SummaryRowOk(w', w'.rows[id]);
  }

  // ---- frozen once, behind the gate ----------------------------------------------

  /** Once the summary has a text, no step of a current-rendering plan gives it another. */
  lemma {:induction false} SummaryTextIsFrozen(w: World, run: seq<Event>, id: RowId)
    requires Inv(w) && SummaryInv(w) && Legal(w, run) && w.plan.currentRendering
    requires id in SummaryIds(w.rows) && w.rows[id].text.Some?
    ensures id in After(w, run).rows && After(w, run).rows[id].text == w.rows[id].text
    decreases |run|
  {
    if run != [] {
      var w' := Next(w, run[0]);
      TextStep(w, run[0], id);
      RowDescends(w, run[0], id);
      StepSummary(w, run[0]);
      StepInv(w, run[0]);
      assert SummaryRowOk(w, w.rows[id]);
      assert w'.plan == w.plan;
      SummaryTextIsFrozen(w', run[1..], id);
    }
  }

  /** Some event of the run was a listing by this reader in which every inline row was settled. */
  ghost predicate SawSettled(w: World, run: seq<Event>, reader: ReaderId)
    requires Legal(w, run)
    decreases |run|
  {
    run != [] &&
    ((run[0] == Gate(reader) && AllInlineSettled(w.rows)) || SawSettled(Next(w, run[0]), run[1..], reader))
  }

  lemma {:induction false} PassedSawSettled(w: World, run: seq<Event>, reader: ReaderId)
    requires Legal(w, run)
    requires reader in After(w, run).sessions && After(w, run).sessions[reader].passed
    requires reader in w.sessions ==> !w.sessions[reader].passed
    ensures SawSettled(w, run, reader)
    decreases |run|
  {
    assert run != [];
    var w' := Next(w, run[0]);
    if reader in w'.sessions && w'.sessions[reader].passed {
      StepSessions(w, run[0], reader);
    } else {
      PassedSawSettled(w', run[1..], reader);
    }
  }

  /** The text is frozen only by a reader that had seen every inline row settled. */
  lemma FrozenBehindGate(w: World, run: seq<Event>, reader: ReaderId, id: RowId)
    requires Initial(w) && Legal(w, run) && Enabled(After(w, run), FreezeSummary(reader, id))
    ensures SawSettled(w, run, reader)
  {
    PassedSawSettled(w, run, reader);
  }

  /** A text appears on a summary only through FreezeSummary, while the plan renders as it was frozen. */
  lemma {:induction false} TextComesFromFreeze(w: World, e: Event, id: RowId)
    requires Inv(w) && Enabled(w, e) && w.plan.currentRendering && id in w.rows
    requires Next(w, e).rows[id].text != w.rows[id].text
    ensures e.FreezeSummary?
    ensures w.rows[id].state.Waiting? && Next(w, e).rows[id].text == Some(SummaryOf(w.sessions[e.reader].view))
  {
    TextStep(w, e, id);
  }
}
