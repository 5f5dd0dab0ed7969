/**
 * The permits of key derivation (services/encryption.service.ts deriveKey): at most four
 * derivations at a time, at most 64 callers waiting, and a finished derivation hands its
 * permit straight to the first of them.
 */
module DeriveKeyPermits {
  const PERMITS: nat := 4
  const QUEUE_LIMIT: nat := 64

  type Caller = nat

  /**
   * active and waiting are the code's own fields. running are the callers deriving a key,
   * transit those handed a permit whose turn of the event loop has not come yet. accepted
   * and permitted record, in order, who was let in and who got a permit.
   */
  datatype State = State(active: int, waiting: seq<Caller>, running: set<Caller>, transit: set<Caller>,
                         accepted: seq<Caller>, permitted: seq<Caller>)

  const START := State(0, [], {}, {}, [], [])

  /** Finish covers success and failure alike: both pass through the finally block. */
  datatype Event = Arrive(who: Caller) | Resume(who: Caller) | Finish(who: Caller)

  predicate Refused(s: State) {
    s.active >= PERMITS && |s.waiting| >= QUEUE_LIMIT
  }

  predicate Enabled(s: State, e: Event) {
    match e
    case Arrive(who) => who !in s.accepted
    case Resume(who) => who in s.transit
    case Finish(who) => who in s.running
  }

  function Arrived(s: State, who: Caller): State {
    if Refused(s) then s
    else if s.active >= PERMITS then s.(waiting := s.waiting + [who], accepted := s.accepted + [who])
    else s.(active := s.active + 1, running := s.running + {who}, accepted := s.accepted + [who],
            permitted := s.permitted + [who])
  }

  function Released(s: State, who: Caller): State {
    var s' := s.(running := s.running - {who});
    if s.waiting == [] then s'.(active := s.active - 1)
    else s'.(waiting := s.waiting[1..], transit := s.transit + {s.waiting[0]},
             permitted := s.permitted + [s.waiting[0]])
  }

  function Step(s: State, e: Event): State {
    match e
    case Arrive(who) => Arrived(s, who)
    case Resume(who) => s.(transit := s.transit - {who}, running := s.running + {who})
    case Finish(who) => Released(s, who)
  }

  predicate IsRun(events: seq<Event>, states: seq<State>) {
    && |states| == |events| + 1
    && forall i :: 0 <= i < |events| ==> Enabled(states[i], events[i]) && states[i + 1] == Step(states[i], events[i])
  }

  predicate NoRepeats(callers: seq<Caller>) {
    forall i, j :: 0 <= i < j < |callers| ==> callers[i] != callers[j]
  }

  /**
   * Every permit is with a running caller or on its way to one, nobody waits while a permit
   * is free, and permits have been granted in the order of arrival.
   */
  predicate Inv(s: State) {
    && |s.running| + |s.transit| == s.active <= 4
    && |s.waiting| <= 64
    && (s.waiting != [] ==> s.active == 4)
    && s.accepted == s.permitted + s.waiting && NoRepeats(s.accepted)
    && s.running !! s.transit
    && (forall who :: who in s.running + s.transit ==> who in s.permitted)
  }

  lemma ArriveInv(s: State, who: Caller)
    requires Inv(s) && who !in s.accepted
    ensures Inv(Arrived(s, who))
  {
    var s' := Arrived(s, who);
    assert forall x :: x in s.permitted ==> x in s.accepted;
    if s.active < PERMITS {
      assert s.waiting == [];
      assert s'.accepted == s'.permitted + s'.waiting;
    } else if !Refused(s) {
      assert s'.accepted == s'.permitted + s'.waiting;
    }
  }

  lemma FinishInv(s: State, who: Caller)
    requires Inv(s) && who in s.running
    ensures Inv(Released(s, who))
  {
    var s' := Released(s, who);
    assert |s.running - {who}| == |s.running| - 1;
    if s.waiting != [] {
      var next := s.waiting[0];
      WaiterHasNone(s, 0);
      assert next !in s.transit && next !in s.running;
      assert s'.permitted + s'.waiting == s.accepted;
    }
  }

  lemma StepInv(s: State, e: Event)
    requires Inv(s) && Enabled(s, e)
    ensures Inv(Step(s, e))
  {
    match e
    case Arrive(who) => ArriveInv(s, who);
    case Finish(who) => FinishInv(s, who);
    case Resume(who) => assert who !in s.running;
  }

  /** Whatever the order of arrivals, resumptions and completions, the invariant holds. */
  lemma {:induction false} RunInv(events: seq<Event>, states: seq<State>, i: nat)
    requires IsRun(events, states) && i < |states| && states[0] == START
    ensures Inv(states[i])
    decreases i
  {
    hide Inv;
    if i == 0 {
      StartInv();
    } else {
      RunInv(events, states, i - 1);
      assert Enabled(states[i - 1], events[i - 1]);
      StepInv(states[i - 1], events[i - 1]);
    }
  }

  lemma StartInv()
    ensures Inv(START)
  {
  }

  // ---- how long a caller waits --------------------------------------------------------------------

  function Finishes(events: seq<Event>): nat {
    if events == [] then 0 else Finishes(events[..|events| - 1]) + if events[|events| - 1].Finish? then 1 else 0
  }

  /** Having stood at place p when n completions ago the count began. */
  ghost predicate Served(s: State, who: Caller, p: nat, n: nat) {
    if n <= p then p - n < |s.waiting| && s.waiting[p - n] == who && who !in s.permitted
    else who in s.permitted
  }

  /**
   * A caller with p others before it in the queue gets its permit at exactly the (p+1)-th
   * completion from now, whatever else happens in between.
   */
  lemma {:induction false} PermitAfterExactly(events: seq<Event>, states: seq<State>, p: nat)
    requires IsRun(events, states) && Inv(states[0]) && p < |states[0].waiting|
    ensures Inv(states[|events|]) && Served(states[|events|], states[0].waiting[p], p, Finishes(events))
    decreases |events|
  {
    hide Inv;
    hide Step;
    hide Served;
    hide Enabled;
    var n := |events|;
    if n == 0 {
      WaiterHasNone(states[0], p);
      ServedAtFirst(states[0], p);
    } else {
      assert IsRun(events[..n - 1], states[..n]);
      PermitAfterExactly(events[..n - 1], states[..n], p);
      var s, e := states[n - 1], events[n - 1];
      assert Enabled(s, e) && states[n] == Step(s, e);
      StepInv(s, e);
      ServedStep(s, e, states[0].waiting[p], p, Finishes(events[..n - 1]));
    }
  }

  lemma ServedAtFirst(s: State, p: nat)
    requires p < |s.waiting| && s.waiting[p] !in s.permitted
    ensures Served(s, s.waiting[p], p, 0)
  {
  }

  lemma ServedStep(s: State, e: Event, who: Caller, p: nat, n: nat)
    requires Inv(s) && Enabled(s, e) && Served(s, who, p, n)
    ensures Served(Step(s, e), who, p, n + if e.Finish? then 1 else 0)
  {
    if n <= p {
      hide Inv;
      WaiterMoves(s, e, p - n);
    }
  }

  lemma WaiterHasNone(s: State, p: nat)
    requires Inv(s) && p < |s.waiting|
    ensures s.waiting[p] !in s.permitted
  {
    assert s.accepted[|s.permitted| + p] == s.waiting[p];
    assert forall i :: 0 <= i < |s.permitted| ==> s.accepted[i] == s.permitted[i];
  }

  lemma WaiterMoves(s: State, e: Event, p: nat)
    requires Inv(s) && Enabled(s, e) && p < |s.waiting|
    ensures var s', who := Step(s, e), s.waiting[p];
            if !e.Finish? then p < |s'.waiting| && s'.waiting[p] == who && who !in s'.permitted
            else if p == 0 then who in s'.permitted
            else p - 1 < |s'.waiting| && s'.waiting[p - 1] == who && who !in s'.permitted
  {
    StepInv(s, e);
    var s' := Step(s, e);
    if !e.Finish? {
      WaiterHasNone(s', p);
    } else if p > 0 {
      WaiterHasNone(s', p - 1);
    }
  }

  // ---- the class --------------------------------------------------------------------------------------

  class KeyDerivation {
    var active: int
    var waiting: seq<Caller>
    ghost var running: set<Caller>
    ghost var transit: set<Caller>
    ghost var accepted: seq<Caller>
    ghost var permitted: seq<Caller>

    ghost function Now(): State
      reads this
    {
      State(active, waiting, running, transit, accepted, permitted)
    }

    constructor ()
      ensures Now() == START
    {
      active, waiting, running, transit, accepted, permitted := 0, [], {}, {}, [], [];
    }

    /** A call of deriveKey up to its first await; an error when both the permits and the queue are full. */
    method Acquire(who: Caller) returns (refused: bool)
      requires Inv(Now()) && Enabled(Now(), Arrive(who))
      modifies this
      ensures Now() == Step(old(Now()), Arrive(who)) && Inv(Now())
      ensures refused <==> |old(waiting)| == 64
      ensures if refused then Now() == old(Now())
              else accepted == old(accepted) + [who] &&
                   (if old(active) < 4 then active == old(active) + 1 && permitted == old(permitted) + [who] && who in running
                    else active == old(active) && waiting == old(waiting) + [who] && permitted == old(permitted))
    {
      StepInv(Now(), Arrive(who));
      if active >= PERMITS {
        if |waiting| >= QUEUE_LIMIT {
          return true;
        }
        waiting := waiting + [who];
      } else {
        active := active + 1;
        running, permitted := running + {who}, permitted + [who];
      }
      accepted := accepted + [who];
      refused := false;
    }

    /** A caller handed a permit goes on. */
    ghost method Continue(who: Caller)
      requires Inv(Now()) && Enabled(Now(), Resume(who))
      modifies this`running, this`transit
      ensures Now() == Step(old(Now()), Resume(who)) && Inv(Now())
    {
      StepInv(Now(), Resume(who));
      transit, running := transit - {who}, running + {who};
    }

    /** The finally block: hand the permit on, or give it back. */
    method Release(ghost who: Caller)
      requires Inv(Now()) && Enabled(Now(), Finish(who))
      modifies this
      ensures Now() == Step(old(Now()), Finish(who)) && Inv(Now())
    {
      StepInv(Now(), Finish(who));
      running := running - {who};
      if waiting != [] {
        transit, permitted := transit + {waiting[0]}, permitted + [waiting[0]];
        waiting := waiting[1..];
      } else {
        active := active - 1;
      }
    }
  }
}
