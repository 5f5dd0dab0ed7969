/**
 * Reading the log of a plan: which events can take a row away from where it stood, so that a
 * row found elsewhere must have met one of them in the meantime.
 */
module DeliveryTrace {
  import opened DeliveryReport
  import opened DeliveryProtocol

  /** The event can change a READY row. */
  predicate MovesReady(e: Event, id: RowId) {
    match e
    case OmitOpen(_) => true
    case Purge => true
    case OmitReady(i, _) => i == id
    case Upgrade(i, _, _) => i == id
    case Claim(i, _, _, _) => i == id
    case _ => false
  }

  /** The event takes a READY row up for sending, or gives it up. */
  predicate Takes(e: Event, id: RowId) {
    match e
    case OmitOpen(_) => true
    case OmitReady(i, _) => i == id
    case Claim(i, _, _, _) => i == id
    case _ => false
  }

  /** The event can change an UNKNOWN row. */
  predicate Resolves(e: Event, id: RowId) {
    match e
    case Match(i, _, _, _) => i == id
    case Record(_, _) => true
    case _ => false
  }

  /** No READY row but this one is changed by the event. */
  predicate OnlyMoves(e: Event, id: RowId) {
    match e
    case OmitOpen(_) => false
    case Purge => false
    case OmitReady(i, _) => i == id
    case Upgrade(i, _, _) => i == id
    case Claim(i, _, _, _) => i == id
    case _ => true
  }

  /** The row can be sent but for a retry time that has not come. */
  predicate MustWait(rows: Rows, id: RowId, now: int) {
    id in rows && rows[id].state == Ready && rows[id].retryAt.Some? && rows[id].retryAt.value > now
  }

  // ---- logs ------------------------------------------------------------------------------------

  ghost predicate TookSince(log: seq<Event>, at: nat, id: RowId) {
    exists k :: at <= k < |log| && Takes(log[k], id)
  }

  ghost predicate MovedSince(log: seq<Event>, at: nat, id: RowId) {
    exists k :: at <= k < |log| && MovesReady(log[k], id)
  }

  ghost predicate MatchedSince(log: seq<Event>, at: nat, id: RowId) {
    exists k :: at <= k < |log| && log[k].Match? && log[k].id == id
  }

  ghost predicate ResolvedSince(log: seq<Event>, at: nat, id: RowId) {
    exists k :: at <= k < |log| && Resolves(log[k], id)
  }

  ghost predicate RecordedSince(log: seq<Event>, at: nat) {
    exists k :: at <= k < |log| && log[k].Record?
  }

  /** What a log tells it goes on telling as it grows, and from an earlier position on. */
  lemma LongerLog(log: seq<Event>, longer: seq<Event>, at: nat, before: nat, id: RowId)
    requires log <= longer && before <= at
    ensures TookSince(log, at, id) ==> TookSince(longer, before, id)
    ensures MovedSince(log, at, id) ==> MovedSince(longer, before, id)
    ensures MatchedSince(log, at, id) ==> MatchedSince(longer, before, id)
    ensures ResolvedSince(log, at, id) ==> ResolvedSince(longer, before, id)
    ensures RecordedSince(log, at) ==> RecordedSince(longer, before)
  {
    hide Takes;
    hide MovesReady;
    hide Resolves;
    assert forall k :: 0 <= k < |log| ==> longer[k] == log[k];
  }

  /** One party has taken the row up since its log stood at o, or the others have moved it since p. */
  ghost predicate TakenUp(own: seq<Event>, o: nat, others: seq<Event>, p: nat, id: RowId) {
    TookSince(own, o, id) || MovedSince(others, p, id)
  }

  /** One party has saved evidence for the row, or the others have resolved it. */
  ghost predicate LookedFor(own: seq<Event>, o: nat, others: seq<Event>, p: nat, id: RowId) {
    MatchedSince(own, o, id) || ResolvedSince(others, p, id)
  }

  lemma LaterStill(own: seq<Event>, o: nat, others: seq<Event>, p: nat, own': seq<Event>, o': nat, others': seq<Event>, p': nat)
    requires own <= own' && others <= others' && o' <= o && p' <= p
    ensures forall id :: TakenUp(own, o, others, p, id) ==> TakenUp(own', o', others', p', id)
    ensures forall id :: LookedFor(own, o, others, p, id) ==> LookedFor(own', o', others', p', id)
  {
    forall id
      ensures TakenUp(own, o, others, p, id) ==> TakenUp(own', o', others', p', id)
      ensures LookedFor(own, o, others, p, id) ==> LookedFor(own', o', others', p', id)
    {
      LongerLog(own, own', o, o', id);
      LongerLog(others, others', p, p', id);
    }
  }

  /** The summary of a listing has been taken up, or is neither READY nor WAITING, or others recorded a receipt. */
  ghost predicate SummaryDone(view: Rows, rows: Rows, own: seq<Event>, o: nat, others: seq<Event>, p: nat) {
    && !NeedsLocationSummary(view)
    && forall id :: id in SummaryIds(view) ==>
         || TakenUp(own, o, others, p, id) || RecordedSince(others, p)
         || (id in rows && rows[id].state !in {State.Ready, State.Waiting})
  }

  // ---- rows ------------------------------------------------------------------------------------

  lemma RowStays(w: World, e: Event, id: RowId)
    requires Enabled(w, e) && id in w.rows
    requires (w.rows[id].state.Ready? && !MovesReady(e, id)) || (w.rows[id].state.Unknown? && !Resolves(e, id))
    ensures id in Next(w, e).rows && Next(w, e).rows[id] == w.rows[id]
  {
    hide BackoffUntil;
    hide SummaryOf;
    hide AllInlineSettled;
    hide NeedsLocationSummary;
  }

  /** A READY row stays as it is until an event moves it. */
  lemma {:induction false} ReadyUntilMoved(w: World, run: seq<Event>, id: RowId)
    requires Legal(w, run) && id in w.rows && w.rows[id].state.Ready?
    requires forall k :: 0 <= k < |run| ==> !MovesReady(run[k], id)
    ensures id in After(w, run).rows && After(w, run).rows[id] == w.rows[id]
    decreases |run|
  {
    hide Enabled;
    hide Next;
    if run != [] {
      RowStays(w, run[0], id);
      assert forall k :: 0 <= k < |run[1..]| ==> run[1..][k] == run[k + 1];
      ReadyUntilMoved(Next(w, run[0]), run[1..], id);
    }
  }

  /** An UNKNOWN row stays as it is until evidence or a receipt resolves it. */
  lemma {:induction false} UnknownUntilResolved(w: World, run: seq<Event>, id: RowId)
    requires Legal(w, run) && id in w.rows && w.rows[id].state.Unknown?
    requires forall k :: 0 <= k < |run| ==> !Resolves(run[k], id)
    ensures id in After(w, run).rows && After(w, run).rows[id] == w.rows[id]
    decreases |run|
  {
    hide Enabled;
    hide Next;
    if run != [] {
      RowStays(w, run[0], id);
      assert forall k :: 0 <= k < |run[1..]| ==> run[1..][k] == run[k + 1];
      UnknownUntilResolved(Next(w, run[0]), run[1..], id);
    }
  }

  /** A row past READY and WAITING comes back only by a receipt. */
  lemma {:induction false} OutUntilRecorded(w: World, run: seq<Event>, id: RowId)
    requires Legal(w, run) && id in w.rows && w.rows[id].state !in {State.Ready, State.Waiting}
    requires forall k :: 0 <= k < |run| ==> !run[k].Record?
    ensures id in After(w, run).rows && After(w, run).rows[id].state !in {State.Ready, State.Waiting}
    decreases |run|
  {
    hide Enabled;
    hide Next;
    if run != [] {
      OutStep(w, run[0], id);
      assert forall k :: 0 <= k < |run[1..]| ==> run[1..][k] == run[k + 1];
      OutUntilRecorded(Next(w, run[0]), run[1..], id);
    }
  }

  lemma OutStep(w: World, e: Event, id: RowId)
    requires Enabled(w, e) && id in w.rows && w.rows[id].state !in {State.Ready, State.Waiting} && !e.Record?
    ensures id in Next(w, e).rows && Next(w, e).rows[id].state !in {State.Ready, State.Waiting}
  {
    hide BackoffUntil;
    hide SummaryOf;
    hide AllInlineSettled;
    hide NeedsLocationSummary;
  }

  /** A row that does not wait never waits again. */
  lemma {:induction false} NeverWaitsAgain(w: World, run: seq<Event>, id: RowId)
    requires Legal(w, run) && id in w.rows && w.rows[id].state != Waiting
    ensures id in After(w, run).rows && After(w, run).rows[id].state != Waiting
    decreases |run|
  {
    hide Enabled;
    hide Next;
    if run != [] {
      WaitingStep(w, run[0], id);
      NeverWaitsAgain(Next(w, run[0]), run[1..], id);
    }
  }

  lemma WaitingStep(w: World, e: Event, id: RowId)
    requires Enabled(w, e) && id in w.rows
    ensures id in Next(w, e).rows && (w.rows[id].state != Waiting ==> Next(w, e).rows[id].state != Waiting)
  {
    hide BackoffUntil;
    hide SummaryOf;
    hide AllInlineSettled;
    hide NeedsLocationSummary;
  }

  /** A log that two parties write: what is new in it is new in one of theirs. */
  lemma SomebodyDid(all: seq<Event>, mine: seq<Event>, theirs: seq<Event>, past: seq<Event>, minePast: seq<Event>,
                    theirsPast: seq<Event>, k: nat)
    requires past <= all && minePast <= mine && theirsPast <= theirs && |past| <= k < |all|
    requires multiset(all) == multiset(mine) + multiset(theirs)
    requires multiset(past) == multiset(minePast) + multiset(theirsPast)
    ensures (exists i :: |minePast| <= i < |mine| && mine[i] == all[k]) ||
            (exists i :: |theirsPast| <= i < |theirs| && theirs[i] == all[k])
  {
    var a, m, t := all[|past|..], mine[|minePast|..], theirs[|theirsPast|..];
    assert all == past + a && mine == minePast + m && theirs == theirsPast + t;
    assert multiset(all) == multiset(past) + multiset(a);
    assert multiset(mine) == multiset(minePast) + multiset(m);
    assert multiset(theirs) == multiset(theirsPast) + multiset(t);
    assert a[k - |past|] == all[k] && all[k] in multiset(a);
    var e := all[k];
    assert multiset(all)[e] == multiset(past)[e] + multiset(a)[e];
    assert multiset(mine)[e] == multiset(minePast)[e] + multiset(m)[e];
    assert multiset(theirs)[e] == multiset(theirsPast)[e] + multiset(t)[e];
    assert multiset(all)[e] == multiset(mine)[e] + multiset(theirs)[e];
    assert multiset(past)[e] == multiset(minePast)[e] + multiset(theirsPast)[e];
    if all[k] in multiset(m) {
      var i :| 0 <= i < |m| && m[i] == all[k];
      assert mine[|minePast| + i] == all[k];
    } else {
      assert all[k] in multiset(t);
      var i :| 0 <= i < |t| && t[i] == all[k];
      assert theirs[|theirsPast| + i] == all[k];
    }
  }
}
