/**
 * The delivery rows of one review plan and the figures read off them
 * (services/comment-delivery-report.ts). Rows are kept in a map, as the table is
 * keyed by row id; every figure is a count, so the order of a listing is irrelevant.
 */
module DeliveryReport {
  import opened Basics

  type RowId = nat
  type Token = nat
  type CommentId = nat
  type FindingKey = string

  datatype Kind = Inline | Summary

  datatype State = Waiting | Ready | Sending | Unknown | Delivered | Rejected | Omitted

  datatype Reason =
    | LocationUnverified
    | HeadChanged
    | WindowExpired
    | RateLimited
    | AttemptsExhausted
    | GitHubRejected
    | Unconfirmed
    | ReconciliationIncomplete
    | MultipleMatches
    | Disconnected

  /** What a frozen comment says. Digests are injective, so a payload hash is modelled by the text itself. */
  datatype Text =
    | InlineText(key: FindingKey, rendering: nat)
    | SummaryText(figures: Report, fallback: set<FindingKey>, uncertain: set<FindingKey>)

  datatype Row = Row(
    kind: Kind,
    key: Option<FindingKey>,
    state: State,
    attempts: nat,
    token: Option<Token>,
    leaseUntil: Option<int>,
    retryAt: Option<int>,
    text: Option<Text>,
    comment: Option<CommentId>,
    reason: Option<Reason>)

  type Rows = map<RowId, Row>

  datatype Report = Report(
    expected: nat,
    delivered: nat,
    rejected: nat,
    omitted: nat,
    pending: nat,
    unconfirmed: nat,
    summary: set<State>)

  predicate Terminal(s: State) {
    s.Delivered? || s.Rejected? || s.Omitted?
  }

  predicate Settled(s: State) {
    Terminal(s) || s.Unknown?
  }

  function InlineIds(rows: Rows): set<RowId> {
    set id | id in rows && rows[id].kind.Inline?
  }

  function SummaryIds(rows: Rows): set<RowId> {
    set id | id in rows && rows[id].kind.Summary?
  }

  function InState(rows: Rows, s: State): set<RowId> {
    set id | id in rows && rows[id].kind.Inline? && rows[id].state == s
  }

  function Count(rows: Rows, s: State): nat {
    |InState(rows, s)|
  }

  predicate AllInlineSettled(rows: Rows) {
    forall id :: id in rows && rows[id].kind.Inline? ==> Settled(rows[id].state)
  }

  predicate AllSettled(rows: Rows) {
    forall id :: id in rows ==> Settled(rows[id].state)
  }

  predicate NeedsLocationSummary(rows: Rows) {
    && (exists id :: id in rows && rows[id].kind.Inline? && rows[id].reason == Some(LocationUnverified))
    && SummaryIds(rows) == {}
  }

  /** commentDeliveryReport: the five figures, and the state of the summary row when there is one. */
  function ReportOf(rows: Rows): (r: Report)
    ensures r.expected == |InlineIds(rows)|
    ensures r.delivered + r.rejected + r.omitted + r.pending + r.unconfirmed == r.expected
    ensures AllInlineSettled(rows) <==> r.pending == 0
    ensures (r.pending == 0 && r.unconfirmed == 0) <==> (forall id :: id in InlineIds(rows) ==> Terminal(rows[id].state))
    ensures r.summary == {} <==> SummaryIds(rows) == {}
  {
    CountsPartition(rows);
    NoneInState(rows);
    SummaryStatesEmpty(rows);
    Report(
      |InlineIds(rows)|,
      Count(rows, Delivered), Count(rows, Rejected), Count(rows, Omitted),
      Count(rows, Ready) + Count(rows, Waiting) + Count(rows, Sending),
      Count(rows, Unknown),
      SummaryStates(rows))
  }

  function SummaryStates(rows: Rows): set<State> {
    set id | id in rows && rows[id].kind.Summary? :: rows[id].state
  }

  lemma SummaryStatesEmpty(rows: Rows)
    ensures SummaryStates(rows) == {} <==> SummaryIds(rows) == {}
  {
    assert forall id :: id in SummaryIds(rows) ==> rows[id].state in SummaryStates(rows);
    if SummaryStates(rows) != {} {
      var s :| s in SummaryStates(rows);
      var id :| id in rows && rows[id].kind.Summary? && rows[id].state == s;
      assert id in SummaryIds(rows);
    }
  }

  function InStates(rows: Rows, states: set<State>): set<RowId> {
    set id | id in rows && rows[id].kind.Inline? && rows[id].state in states
  }

  function SumCounts(rows: Rows, states: seq<State>): nat {
    if states == [] then 0 else Count(rows, states[0]) + SumCounts(rows, states[1..])
  }

  lemma SumCountsIsCardinality(rows: Rows, states: seq<State>)
    requires forall i, j :: 0 <= i < j < |states| ==> states[i] != states[j]
    ensures SumCounts(rows, states) == |InStates(rows, set s | s in states)|
  {
    if states == [] {
      assert InStates(rows, set s | s in states) == {};
    } else {
      SumCountsIsCardinality(rows, states[1..]);
      var rest := InStates(rows, set s | s in states[1..]);
      assert InState(rows, states[0]) !! rest;
      assert InStates(rows, set s | s in states) == InState(rows, states[0]) + rest;
    }
  }

  /** Every inline row is in exactly one of the seven states. */
  lemma CountsPartition(rows: Rows)
    ensures |InlineIds(rows)| ==
            Count(rows, Delivered) + Count(rows, Rejected) + Count(rows, Omitted) + Count(rows, Unknown) +
            Count(rows, Ready) + Count(rows, Waiting) + Count(rows, Sending)
  {
    var states := [Delivered, Rejected, Omitted, Unknown, Ready, Waiting, Sending];
    SumCountsIsCardinality(rows, states);
    forall s: State
      ensures s in states
    {
      match s
      case Delivered => assert s == states[0];
      case Rejected => assert s == states[1];
      case Omitted => assert s == states[2];
      case Unknown => assert s == states[3];
      case Ready => assert s == states[4];
      case Waiting => assert s == states[5];
      case Sending => assert s == states[6];
    }
    AllStatesListed(rows, states);
    assert SumCounts(rows, states[6..]) == Count(rows, Sending) + SumCounts(rows, states[7..]);
    assert SumCounts(rows, states[5..]) == Count(rows, Waiting) + SumCounts(rows, states[6..]);
    assert SumCounts(rows, states[4..]) == Count(rows, Ready) + SumCounts(rows, states[5..]);
    assert SumCounts(rows, states[3..]) == Count(rows, Unknown) + SumCounts(rows, states[4..]);
    assert SumCounts(rows, states[2..]) == Count(rows, Omitted) + SumCounts(rows, states[3..]);
    assert SumCounts(rows, states[1..]) == Count(rows, Rejected) + SumCounts(rows, states[2..]);
  }

  lemma AllStatesListed(rows: Rows, states: seq<State>)
    requires forall s: State :: s in states
    ensures InStates(rows, set s | s in states) == InlineIds(rows)
  {
  }

  lemma NoneInState(rows: Rows)
    ensures forall s :: Count(rows, s) == 0 <==> forall id :: id in InlineIds(rows) ==> rows[id].state != s
  {
    forall s
      ensures Count(rows, s) == 0 <==> forall id :: id in InlineIds(rows) ==> rows[id].state != s
    {
      assert forall id :: id in InlineIds(rows) && rows[id].state == s <==> id in InState(rows, s);
    }
  }

  // ---- the figures in the words of the table ----------------------------------------------------

  ghost predicate Are(ids: set<RowId>, rows: Rows, states: set<State>) {
    forall id :: id in ids <==> id in rows && rows[id].kind == Inline && rows[id].state in states
  }

  /** Each figure counts the inline rows of its states, and pending those that are still to be decided. */
  lemma FiguresCount(rows: Rows, delivered: set<RowId>, rejected: set<RowId>, omitted: set<RowId>, unknown: set<RowId>,
                     undecided: set<RowId>)
    requires Are(delivered, rows, {State.Delivered}) && Are(rejected, rows, {State.Rejected})
    requires Are(omitted, rows, {State.Omitted}) && Are(unknown, rows, {State.Unknown})
    requires Are(undecided, rows, {State.Waiting, State.Ready, State.Sending})
    ensures var r := ReportOf(rows);
            && r.delivered == |delivered| && r.rejected == |rejected| && r.omitted == |omitted|
            && r.unconfirmed == |unknown| && r.pending == |undecided|
            && forall s :: s in r.summary <==> exists id :: id in rows && rows[id].kind == Summary && rows[id].state == s
  {
    hide Count;
    hide Are;
    CountIs(rows, Delivered, delivered);
    CountIs(rows, Rejected, rejected);
    CountIs(rows, Omitted, omitted);
    CountIs(rows, Unknown, unknown);
    UndecidedCount(rows, undecided);
  }

  lemma CountIs(rows: Rows, s: State, ids: set<RowId>)
    requires Are(ids, rows, {s})
    ensures Count(rows, s) == |ids|
  {
    assert ids == InState(rows, s);
  }

  lemma UndecidedCount(rows: Rows, ids: set<RowId>)
    requires Are(ids, rows, {State.Waiting, State.Ready, State.Sending})
    ensures Count(rows, Ready) + Count(rows, Waiting) + Count(rows, Sending) == |ids|
  {
    var r, w, s := InState(rows, Ready), InState(rows, Waiting), InState(rows, Sending);
    assert r !! w && (r + w) !! s;
    assert ids == r + w + s;
  }

  /** Where a delivery may stop and where it may finish. */
  lemma SettledStates(rows: Rows)
    ensures AllSettled(rows) <==> forall id :: id in rows ==> rows[id].state in {Delivered, Rejected, Omitted, Unknown}
    ensures AllInlineSettled(rows) <==>
            forall id :: id in rows && rows[id].kind == Inline ==> rows[id].state in {Delivered, Rejected, Omitted, Unknown}
    ensures NeedsLocationSummary(rows) <==>
            && (exists id :: id in rows && rows[id].kind == Inline && rows[id].reason == Some(LocationUnverified))
            && (forall id :: id in rows ==> rows[id].kind != Summary)
  {
    assert forall id :: id in SummaryIds(rows) <==> id in rows && rows[id].kind == Summary;
  }
}
