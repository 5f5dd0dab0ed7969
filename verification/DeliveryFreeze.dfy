/**
 * Which listing the summary is frozen from. A delivery lists the rows a second time only
 * when it has just added a missing summary row; for every other plan the frozen listing is
 * the one in which all inline rows were settled.
 */
module DeliveryFreeze {
  import opened Basics
  import opened DeliveryReport
  import opened DeliveryProtocol
  import opened DeliverySafety
  import opened DeliveryTheorems
  import opened DeliverySummary

  // ---- rows keep their finding -------------------------------------------------------------

  predicate SameFinding(rows: Rows, id: RowId, row: Row) {
    id in rows && rows[id].kind == row.kind && rows[id].key == row.key
  }

  lemma FindingStep(w: World, e: Event, id: RowId)
    requires Inv(w) && Enabled(w, e) && id in w.rows
    ensures SameFinding(Next(w, e).rows, id, w.rows[id])
  {
    hide Inv;
    hide SummaryOf;
    hide BackoffUntil;
    hide AllInlineSettled;
  }

  lemma {:induction false} AfterSplit(w: World, a: seq<Event>, b: seq<Event>)
    requires Legal(w, a + b) && Legal(w, a)
    ensures Legal(After(w, a), b) && After(After(w, a), b) == After(w, a + b)
    decreases |a|
  {
    if a == [] {
      assert a + b == b;
    } else {
      assert (a + b)[0] == a[0] && (a + b)[1..] == a[1..] + b;
      AfterSplit(Next(w, a[0]), a[1..], b);
    }
  }

  lemma {:induction false} FindingStaysAlong(w: World, run: seq<Event>, id: RowId)
    requires Inv(w) && Legal(w, run) && id in w.rows
    ensures SameFinding(After(w, run).rows, id, w.rows[id])
    decreases |run|
  {
    hide Inv;
    hide Next;
    hide Enabled;
    if run != [] {
      FindingStep(w, run[0], id);
      StepInv(w, run[0]);
      FindingStaysAlong(Next(w, run[0]), run[1..], id);
    }
  }

  lemma FindingsStay(w: World, a: seq<Event>, b: seq<Event>, id: RowId)
    requires Inv(w) && Legal(w, a) && Legal(w, a + b) && id in After(w, a).rows
    ensures SameFinding(After(w, a + b).rows, id, After(w, a).rows[id])
  {
    AfterSplit(w, a, b);
    RunInv(w, a);
    FindingStaysAlong(After(w, a), b, id);
  }

  // ---- when a second listing can happen -------------------------------------------------------

  predicate Sendable(plan: Plan, row: Row) {
    row.kind.Inline? && row.state.Ready? && Located(plan, row)
  }

  /** No summary row, a finding that needs one for its location, and another that is still to be sent. */
  predicate MayRelist(plan: Plan, rows: Rows) {
    && SummaryIds(rows) == {}
    && (exists a :: a in InlineIds(rows) && !Sendable(plan, rows[a]))
    && (exists b :: b in InlineIds(rows) && Sendable(plan, rows[b]))
  }

  /** Whenever a summary may be frozen, the listing it is frozen from has every inline row settled. */
  ghost predicate SettledWhenFrozen(w: World) {
    forall run, reader, id ::
      Legal(w, run) && Enabled(After(w, run), FreezeSummary(reader, id)) ==> FreezesSettled(After(w, run), reader)
  }

  predicate FreezesSettled(w: World, reader: ReaderId) {
    reader in w.sessions && AllInlineSettled(w.sessions[reader].view)
  }

  // ---- every listing past the gate is settled ----------------------------------------------------

  /** The summary row has been there from the start. */
  ghost predicate SlotKept(w: World) {
    && SummaryIds(w.rows) != {}
    && (forall r :: r in w.sessions ==> SummaryIds(w.sessions[r].view) != {})
  }

  predicate NoneUnverified(rows: Rows) {
    forall id :: id in InlineIds(rows) ==> rows[id].reason != Some(LocationUnverified)
  }

  /** Every finding has a verified location, so that none is ever omitted for it. */
  ghost predicate AllVerified(w: World) {
    && NoneUnverified(w.rows) && (forall r :: r in w.sessions ==> NoneUnverified(w.sessions[r].view))
    && (forall id :: id in InlineIds(w.rows) ==> Located(w.plan, w.rows[id]))
  }

  predicate NoneClaimed(rows: Rows) {
    forall id :: id in InlineIds(rows) ==> rows[id].state.Ready? || rows[id].state.Omitted?
  }

  /** No inline row can be sent, so that none ever becomes uncertain. */
  ghost predicate NothingSendable(w: World) {
    && NoneClaimed(w.rows) && (forall r :: r in w.sessions ==> NoneClaimed(w.sessions[r].view))
    && (forall id :: id in InlineIds(w.rows) ==> !Sendable(w.plan, w.rows[id]))
  }

  ghost predicate Steady(w: World) {
    && (forall r :: r in w.sessions && w.sessions[r].passed ==> AllInlineSettled(w.sessions[r].view))
    && (SlotKept(w) || AllVerified(w) || NothingSendable(w))
  }

  lemma SessionStep(w: World, e: Event, r: ReaderId)
    requires Enabled(w, e) && r in Next(w, e).sessions
    ensures var s := Next(w, e).sessions[r];
            || (r in w.sessions && s == w.sessions[r])
            || (e == Gate(r) && s == Session(AllInlineSettled(w.rows), w.rows) && Next(w, e).rows == w.rows)
            || (e == Reread(r) && r in w.sessions && s == w.sessions[r].(view := w.rows) && Next(w, e).rows == w.rows)
  {
    hide AllInlineSettled;
    hide NeedsLocationSummary;
    if !e.Gate? && !e.Reread? {
      assert Next(w, e).sessions == w.sessions;
    }
  }

  /** A location is found unverified only by the check of the inner send. */
  lemma ReasonStep(w: World, e: Event, id: RowId)
    requires Enabled(w, e) && id in w.rows && id in Next(w, e).rows
    requires Next(w, e).rows[id].reason == Some(LocationUnverified)
    ensures w.rows[id].reason == Some(LocationUnverified) || (e == OmitReady(id, LocationUnverified) && !Located(w.plan, w.rows[id]))
  {
    hide BackoffUntil;
    hide SummaryOf;
    hide AllInlineSettled;
    hide NeedsLocationSummary;
  }

  lemma UnclaimedStep(w: World, e: Event, id: RowId)
    requires Inv(w) && Enabled(w, e) && id in InlineIds(w.rows) && id in Next(w, e).rows
    requires (w.rows[id].state.Ready? && !Located(w.plan, w.rows[id])) || w.rows[id].state.Omitted?
    ensures var row := Next(w, e).rows[id]; row.state.Omitted? || row.state == w.rows[id].state
  {
    if TouchesRowsOnly(e) {
      hide Next;
      RowMoves(w, e, id);
    } else if e.Record? && w.calls[e.token].row == id {
      HolderOwns(w, e.token);
    } else {
      hide Next;
      OtherEventsMove(w, e, id);
    }
  }

  lemma SlotKeptStep(w: World, e: Event)
    requires Inv(w) && Enabled(w, e) && SlotKept(w)
    ensures SlotKept(Next(w, e))
  {
    hide Inv;
    hide Enabled;
    hide Next;
    RowsGrow(w, e);
    var id :| id in SummaryIds(w.rows);
    FindingStep(w, e, id);
    assert id in SummaryIds(Next(w, e).rows);
    forall r | r in Next(w, e).sessions
      ensures SummaryIds(Next(w, e).sessions[r].view) != {}
    {
      SessionStep(w, e, r);
    }
  }

  lemma InlineBefore(w: World, e: Event, id: RowId)
    requires Inv(w) && Enabled(w, e) && id in InlineIds(Next(w, e).rows)
    ensures id in InlineIds(w.rows) && SameFinding(Next(w, e).rows, id, w.rows[id]) && Next(w, e).plan == w.plan
    ensures Located(Next(w, e).plan, Next(w, e).rows[id]) == Located(w.plan, w.rows[id])
  {
    hide Inv;
    hide Enabled;
    hide Next;
    RowsGrow(w, e);
    PlanKept(w, e);
    FindingStep(w, e, id);
  }

  lemma AllVerifiedStep(w: World, e: Event)
    requires Inv(w) && Enabled(w, e) && AllVerified(w)
    ensures AllVerified(Next(w, e))
  {
    hide Inv;
    hide Enabled;
    hide Next;
    forall id | id in InlineIds(Next(w, e).rows)
      ensures Next(w, e).rows[id].reason != Some(LocationUnverified) && Located(Next(w, e).plan, Next(w, e).rows[id])
    {
      InlineBefore(w, e, id);
      if Next(w, e).rows[id].reason == Some(LocationUnverified) {
        ReasonStep(w, e, id);
      }
    }
    forall r | r in Next(w, e).sessions
      ensures NoneUnverified(Next(w, e).sessions[r].view)
    {
      SessionStep(w, e, r);
    }
  }

  lemma NothingSendableStep(w: World, e: Event)
    requires Inv(w) && SummaryInv(w) && Enabled(w, e) && NothingSendable(w)
    ensures NothingSendable(Next(w, e))
  {
    hide Inv;
    hide SummaryInv;
    hide Enabled;
    hide Next;
    forall id | id in InlineIds(Next(w, e).rows)
      ensures var row := Next(w, e).rows[id];
              (row.state.Ready? || row.state.Omitted?) && !Sendable(Next(w, e).plan, row)
    {
      InlineBefore(w, e, id);
      UnclaimedStep(w, e, id);
    }
    forall r | r in Next(w, e).sessions
      ensures NoneClaimed(Next(w, e).sessions[r].view)
    {
      SessionStep(w, e, r);
    }
  }

  /** Without anything sendable, rows settled in an earlier listing are settled now. */
  lemma StillSettled(view: Rows, rows: Rows)
    requires Earlier(view, rows) && NoneClaimed(view) && AllInlineSettled(view)
    ensures AllInlineSettled(rows)
  {
    forall id | id in InlineIds(rows)
      ensures Settled(rows[id].state)
    {
      assert id in InlineIds(view);
    }
    assert forall id :: id in rows && rows[id].kind.Inline? ==> id in InlineIds(rows);
  }

  lemma NoSlotNeeded(view: Rows)
    requires SummaryIds(view) != {} || NoneUnverified(view)
    ensures !NeedsLocationSummary(view)
  {
    assert forall id :: id in view && view[id].kind.Inline? ==> id in InlineIds(view);
  }

  lemma RereadSettled(w: World, r: ReaderId)
    requires SummaryInv(w) && Steady(w) && Enabled(w, Reread(r))
    ensures AllInlineSettled(w.rows)
  {
    hide NeedsLocationSummary;
    hide AllInlineSettled;
    if NothingSendable(w) {
      StillSettled(w.sessions[r].view, w.rows);
    } else {
      NoSlotNeeded(w.sessions[r].view);
    }
  }

  lemma SteadyStep(w: World, e: Event)
    requires Inv(w) && SummaryInv(w) && Steady(w) && Enabled(w, e)
    ensures Steady(Next(w, e))
  {
    hide Inv;
    hide SummaryInv;
    hide Enabled;
    hide Next;
    hide SlotKept;
    hide AllVerified;
    hide NothingSendable;
    hide AllInlineSettled;
    if SlotKept(w) {
      SlotKeptStep(w, e);
    } else if AllVerified(w) {
      AllVerifiedStep(w, e);
    } else {
      NothingSendableStep(w, e);
    }
    forall r | r in Next(w, e).sessions && Next(w, e).sessions[r].passed
      ensures AllInlineSettled(Next(w, e).sessions[r].view)
    {
      SessionStep(w, e, r);
      if e == Reread(r) {
        RereadSettled(w, r);
      }
    }
  }

  lemma {:induction false} RunSteady(w: World, run: seq<Event>)
    requires Inv(w) && SummaryInv(w) && Steady(w) && Legal(w, run)
    ensures Steady(After(w, run))
    decreases |run|
  {
    hide Inv;
    hide SummaryInv;
    hide Steady;
    hide Enabled;
    hide Next;
    if run != [] {
      SteadyStep(w, run[0]);
      StepSummary(w, run[0]);
      StepInv(w, run[0]);
      RunSteady(Next(w, run[0]), run[1..]);
    }
  }

  lemma InitialSteady(w: World)
    requires Initial(w) && !MayRelist(w.plan, w.rows)
    ensures Steady(w)
  {
    if SummaryIds(w.rows) == {} {
      forall id | id in InlineIds(w.rows)
        ensures FreshRow(w.rows[id])
      {
      }
    }
  }

  lemma InitialSummary(w: World)
    requires Initial(w)
    ensures SummaryInv(w)
  {
    forall i | i in w.rows && w.rows[i].kind.Summary?
      ensures SummaryRowOk(w, w.rows[i])
    {
      assert FreshRow(w.rows[i]);
    }
  }

  /** For such a plan the frozen figures report nothing as pending. */
  lemma FrozenListingSettled(w: World, run: seq<Event>, reader: ReaderId, id: RowId)
    requires Initial(w) && Legal(w, run) && !MayRelist(w.plan, w.rows)
    requires Enabled(After(w, run), FreezeSummary(reader, id))
    ensures FreezesSettled(After(w, run), reader)
    ensures SummaryOf(After(w, run).sessions[reader].view).figures.pending == 0
  {
    InitialInv(w);
    InitialSummary(w);
    InitialSteady(w);
    RunSteady(w, run);
  }

  lemma FreshExists(used: set<nat>)
    ensures exists n: nat :: n !in used
  {
    var bound := UpperBound(used);
    assert bound !in used;
  }

  lemma UpperBound(used: set<nat>) returns (bound: nat)
    ensures forall n :: n in used ==> n < bound
  {
    bound := 0;
    if used != {} {
      var n :| n in used;
      var rest := UpperBound(used - {n});
      bound := if n < rest then rest else n + 1;
      assert forall m :: m in used ==> m == n || m in used - {n};
    }
  }

  // ---- and otherwise it need not be ------------------------------------------------------------------

  /** Every row is inline and unsent, a is omitted for its location, b can be sent. */
  ghost predicate Poised(w: World, a: RowId, b: RowId) {
    && LockHolds(w) && w.calls == map[] && w.sessions == map[]
    && (forall id :: id in w.rows ==> w.rows[id].kind.Inline? && (w.rows[id].state.Ready? || w.rows[id].state.Omitted?))
    && a in w.rows && w.rows[a].state.Omitted? && w.rows[a].reason == Some(LocationUnverified)
    && b in w.rows && Sendable(w.plan, w.rows[b]) && w.rows[b].attempts == 0
  }

  /** b is uncertain with its POST still in flight, and everything else is omitted. */
  ghost predicate Uncertain(w: World, a: RowId, b: RowId) {
    && LockHolds(w) && w.sessions == map[] && a != b
    && (forall id :: id in w.rows ==> w.rows[id].kind.Inline? && (id == b || w.rows[id].state.Omitted?))
    && a in w.rows && w.rows[a].reason == Some(LocationUnverified)
    && b in w.rows && w.rows[b].state.Unknown? && w.rows[b].token == Some(0)
    && w.calls == map[0 := Call(b, w.rows[b].text, 1, Posted, InFlight)]
  }

  lemma OmitUnverified(w: World, a: RowId, b: RowId) returns (run: seq<Event>)
    requires Initial(w) && SummaryIds(w.rows) == {}
    requires a in InlineIds(w.rows) && !Sendable(w.plan, w.rows[a]) && b in InlineIds(w.rows) && Sendable(w.plan, w.rows[b])
    ensures Legal(w, run) && Poised(After(w, run), a, b)
  {
    assert forall id :: id in w.rows ==> FreshRow(w.rows[id]);
    assert forall id :: id in w.rows && w.rows[id].kind.Summary? ==> id in SummaryIds(w.rows);
    if w.rows[a].state.Omitted? {
      run := [];
    } else {
      run := [OmitReady(a, LocationUnverified)];
      assert run[1..] == [];
      assert Enabled(w, run[0]) && After(w, run) == After(Next(w, run[0]), []);
    }
  }

  /** b's POST is in flight under its lease, everything else is unsent. */
  ghost predicate Dispatched(w: World, a: RowId, b: RowId) {
    && LockHolds(w) && w.sessions == map[] && a != b
    && (forall id :: id in w.rows ==> w.rows[id].kind.Inline? && (id == b || w.rows[id].state.Ready? || w.rows[id].state.Omitted?))
    && a in w.rows && w.rows[a].state.Omitted? && w.rows[a].reason == Some(LocationUnverified)
    && b in w.rows && w.rows[b].state.Sending? && w.rows[b].token == Some(0) && w.rows[b].leaseUntil == Some(LEASE_MS)
    && w.calls == map[0 := Call(b, w.rows[b].text, 1, Posted, InFlight)]
  }

  lemma DispatchOne(w: World, a: RowId, b: RowId) returns (run: seq<Event>)
    requires Poised(w, a, b)
    ensures Legal(w, run) && Dispatched(After(w, run), a, b)
  {
    var e1, e2, e3 := Claim(b, w.rows[b].text, 0, 0), Check(0, 0), Post(0);
    var w1 := Next(w, e1);
    var w2 := Next(w1, e2);
    assert Dispatched(Next(w2, e3), a, b);
    hide Next;
    hide Dispatched;
    run := More(w, [], e1);
    run := More(w, run, e2);
    run := More(w, run, e3);
  }

  lemma LoseTrack(w: World, a: RowId, b: RowId) returns (run: seq<Event>)
    requires Dispatched(w, a, b)
    ensures Legal(w, run) && Uncertain(After(w, run), a, b)
  {
    var e1, e2 := OmitOpen(HeadChanged), ExpireLeases(LEASE_MS);
    var w1 := Next(w, e1);
    assert Uncertain(Next(w1, e2), a, b);
    hide Next;
    hide Uncertain;
    run := More(w, [], e1);
    run := More(w, run, e2);
  }

  lemma More(w: World, run: seq<Event>, e: Event) returns (longer: seq<Event>)
    requires Legal(w, run) && Enabled(After(w, run), e)
    ensures Legal(w, longer) && After(w, longer) == Next(After(w, run), e)
  {
    Extend(w, run, e);
    longer := run + [e];
  }

  /** The listing of the passed session is not settled: b is open again, all else is omitted. */
  ghost predicate Overtaken(w: World, slot: RowId, b: RowId) {
    && Enabled(w, FreezeSummary(0, slot))
    && b in w.sessions[0].view && w.sessions[0].view[b].kind.Inline? && w.sessions[0].view[b].state.Ready?
    && (forall id :: id in InlineIds(w.sessions[0].view) && id != b ==> w.sessions[0].view[id].state.Omitted?)
  }

  /** Past the gate, the missing slot has been added. */
  ghost predicate Slotted(w: World, slot: RowId, b: RowId) {
    && LockHolds(w) && slot in w.rows && w.rows[slot] == NewSummary() && slot != b
    && (forall id :: id in w.rows && id != slot ==> w.rows[id].kind.Inline? && (id == b || w.rows[id].state.Omitted?))
    && b in w.rows && w.rows[b].state.Unknown? && w.rows[b].token == Some(0)
    && w.calls == map[0 := Call(b, w.rows[b].text, 1, Posted, InFlight)]
    && 0 in w.sessions && w.sessions[0].passed && NeedsLocationSummary(w.sessions[0].view)
  }

  lemma FillSlot(w: World, a: RowId, b: RowId, slot: RowId) returns (run: seq<Event>)
    requires Uncertain(w, a, b) && slot !in w.rows
    ensures Legal(w, run) && Slotted(After(w, run), slot, b)
  {
    var e1, e2 := Gate(0), AddSummary(0, slot);
    ViewNeedsSlot(w, a, b);
    var w1 := Next(w, e1);
    assert Slotted(Next(w1, e2), slot, b);
    hide Next;
    hide Slotted;
    run := More(w, [], e1);
    run := More(w, run, e2);
  }

  /** The rate limit is heard at last, and the rows are listed again. */
  lemma HearLate(w: World, b: RowId, slot: RowId) returns (run: seq<Event>)
    requires Slotted(w, slot, b)
    ensures Legal(w, run) && Overtaken(After(w, run), slot, b)
  {
    hide NeedsLocationSummary;
    var e1, e2, e3, e4 := GitHubRefuses(0), Answer(0, Reply.RateLimited(None)), Record(0, 0), Reread(0);
    var w1 := Next(w, e1);
    var w2 := Next(w1, e2);
    var w3 := Next(w2, e3);
    assert slot in SummaryIds(w3.rows);
    var w4 := Next(w3, e4);
    assert slot in SummaryIds(w4.sessions[0].view);
    assert Overtaken(w4, slot, b);
    hide Next;
    hide Overtaken;
    run := More(w, [], e1);
    run := More(w, run, e2);
    run := More(w, run, e3);
    run := More(w, run, e4);
  }

  lemma ViewNeedsSlot(w: World, a: RowId, b: RowId)
    requires Uncertain(w, a, b)
    ensures AllInlineSettled(w.rows) && NeedsLocationSummary(w.rows) && SummaryIds(w.rows) == {}
  {
    assert forall id :: id in SummaryIds(w.rows) ==> w.rows[id].kind.Inline?;
  }

  /** What is frozen then counts b as pending. */
  lemma OvertakenPending(w: World, slot: RowId, b: RowId)
    requires Overtaken(w, slot, b)
    ensures 0 in w.sessions && !FreezesSettled(w, 0) && SummaryOf(w.sessions[0].view).figures.pending == 1
  {
    hide SummaryStates;
    var view := w.sessions[0].view;
    assert b in InlineIds(view);
    assert InState(view, Ready) == {b} && InState(view, Waiting) == {} && InState(view, Sending) == {};
  }

  lemma OvertakenEnabled(w: World, slot: RowId, b: RowId)
    requires Overtaken(w, slot, b)
    ensures Enabled(w, FreezeSummary(0, slot))
  {
  }

  lemma Joined(w: World, a: seq<Event>, b: seq<Event>)
    requires Legal(w, a) && Legal(After(w, a), b)
    ensures Legal(w, a + b) && After(w, a + b) == After(After(w, a), b)
    decreases |a|
  {
    if a == [] {
      assert a + b == b;
    } else {
      assert (a + b)[0] == a[0] && (a + b)[1..] == a[1..] + b;
      Joined(Next(w, a[0]), a[1..], b);
    }
  }

  /** Every plan that may list twice has a run that freezes a summary with a comment still pending. */
  lemma OvertakingRun(w: World) returns (run: seq<Event>, slot: RowId)
    requires Initial(w) && MayRelist(w.plan, w.rows)
    ensures Legal(w, run) && Enabled(After(w, run), FreezeSummary(0, slot))
    ensures 0 in After(w, run).sessions && !FreezesSettled(After(w, run), 0)
    ensures SummaryOf(After(w, run).sessions[0].view).figures.pending == 1
  {
    var a :| a in InlineIds(w.rows) && !Sendable(w.plan, w.rows[a]);
    var b :| b in InlineIds(w.rows) && Sendable(w.plan, w.rows[b]);
    hide *;
    var r1 := OmitUnverified(w, a, b);
    var w1 := After(w, r1);
    var r2 := DispatchOne(w1, a, b);
    var w2 := After(w1, r2);
    var r3 := LoseTrack(w2, a, b);
    var w3 := After(w2, r3);
    FreshExists(w3.rows.Keys);
    slot :| slot !in w3.rows.Keys;
    var r4 := FillSlot(w3, a, b, slot);
    var r5 := HearLate(After(w3, r4), b, slot);
    Joined(w, r1, r2);
    Joined(w, r1 + r2, r3);
    Joined(w, r1 + r2 + r3, r4);
    Joined(w, r1 + r2 + r3 + r4, r5);
    run := r1 + r2 + r3 + r4 + r5;
    OvertakenPending(After(w, run), slot, b);
    OvertakenEnabled(After(w, run), slot, b);
  }

  /**
   * The listing a summary is frozen from is settled in every run exactly when the plan may
   * not list twice.
   */
  lemma SettledExactly(w: World)
    requires Initial(w)
    ensures SettledWhenFrozen(w) <==> !MayRelist(w.plan, w.rows)
  {
    hide Initial;
    hide Enabled;
    hide Next;
    hide FreezesSettled;
    hide MayRelist;
    if MayRelist(w.plan, w.rows) {
      var run, slot := OvertakingRun(w);
      assert Legal(w, run) && Enabled(After(w, run), FreezeSummary(0, slot));
    } else {
      forall run, reader, id | Legal(w, run) && Enabled(After(w, run), FreezeSummary(reader, id))
        ensures FreezesSettled(After(w, run), reader)
      {
        FrozenListingSettled(w, run, reader, id);
      }
    }
  }

  /** A plan of an earlier release without a summary row: one finding unverified, one to send. */
  lemma OldPlanOvertaken()
    ensures var rows := map[0 := Row(Inline, Some("a"), Omitted, 0, None, None, None, None, None, Some(LocationUnverified)),
                            1 := Row(Inline, Some("b"), Ready, 0, None, None, None, Some(InlineText("b", 1)), None, None)];
            var w := World(Plan(0, true, {"b"}), rows, map[], map[], true, true);
            Initial(w) && !SettledWhenFrozen(w)
  {
    var rows := map[0 := Row(Inline, Some("a"), Omitted, 0, None, None, None, None, None, Some(LocationUnverified)),
                    1 := Row(Inline, Some("b"), Ready, 0, None, None, None, Some(InlineText("b", 1)), None, None)];
    var w := World(Plan(0, true, {"b"}), rows, map[], map[], true, true);
    assert 0 in InlineIds(rows) && 1 in InlineIds(rows) && SummaryIds(rows) == {};
    SettledExactly(w);
  }
}
