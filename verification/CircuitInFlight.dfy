/**
 The circuit breaker with several calls in flight: the exact bound on consecutive failures, by the number of calls
 that may overlap.
 */
module CircuitInFlight {
  import opened CircuitBreaker
  import opened Repeats

  /** A call passes the check, or is blocked by it; a call in flight ends. */
  datatype Action = Begin(now: real) | End(now: real, outcome: CallOutcome)

  /** The circuit, the calls in flight, and the failures recorded since the last success. */
  datatype System = System(c: Circuit, inFlight: nat, streak: seq<real>)

  const START := System(CLOSED_CIRCUIT, 0, [])

  function Act(s: System, a: Action): System {
    match a
    case Begin(now) => if Blocks(s.c, now) then s else s.(c := OnCheck(s.c, now), inFlight := s.inFlight + 1)
    case End(now, outcome) =>
      var left := if s.inFlight > 0 then s.inFlight - 1 else 0;
      match outcome
      case SUCCEEDS => System(OnSuccess(s.c), left, [])
      case FAILS => System(OnFailure(s.c, now), left, s.streak + [now])
      case GOES_UNRECORDED => s.(inFlight := left)
  }

  function AfterActions(actions: seq<Action>): System {
    if |actions| == 0 then START
    else Act(AfterActions(actions[..|actions| - 1]), actions[|actions| - 1])
  }

  /** The clock is monotonic, only calls in flight end, and there are never more than m of them. */
  predicate Admissible(actions: seq<Action>, m: nat) {
    |actions| == 0 ||
    (var init, last := actions[..|actions| - 1], actions[|actions| - 1];
     && Admissible(init, m)
     && (|init| > 0 ==> init[|init| - 1].now <= last.now)
     && (last.End? ==> AfterActions(init).inFlight > 0)
     && AfterActions(actions).inFlight <= m)
  }

  /** Any k + 1 consecutive failures span more than the timeout. */
  predicate SpreadBy(streak: seq<real>, k: nat) {
    forall i | 0 <= i && i + k < |streak| :: streak[i + k] - streak[i] > 60.0
  }

  // ---------- the bound ----------

  /** Failures come in order, and a rest longer than the timeout lies before those that are counted. */
  predicate Counted(s: System, clock: real) {
    && s.c.failureCount <= |s.streak|
    && (s.c.failureCount > 0 ==> s.c.lastFailureTime == s.streak[|s.streak| - 1])
    && (forall i | 0 <= i < |s.streak| :: s.streak[i] <= clock)
    && (s.c.failureCount < |s.streak| ==> clock - s.streak[|s.streak| - s.c.failureCount - 1] > RESET_TIMEOUT)
  }

  ghost predicate Guards(s: System, m: nat, clock: real) {
    && Latched(s.c) && Counted(s, clock) && Rising(s.streak) && SpreadBy(s.streak, THRESHOLD - 1 + m)
    && s.inFlight <= m
    && (s.c.open ==> s.c.failureCount + s.inFlight < THRESHOLD + m)
  }

  lemma CountedBefore(s: System, clock: real, i: nat)
    requires Counted(s, clock) && Rising(s.streak) && i + s.c.failureCount < |s.streak|
    ensures clock - s.streak[i] > RESET_TIMEOUT
  {
    var before := |s.streak| - s.c.failureCount - 1;
    assert i < before ==> s.streak[i] <= s.streak[before];
  }

  lemma FailureKeepsSpread(s: System, m: nat, clock: real, now: real)
    requires Guards(s, m, clock) && clock <= now && s.inFlight > 0
    ensures SpreadBy(s.streak + [now], THRESHOLD - 1 + m)
  {
    var k := THRESHOLD - 1 + m;
    var longer := s.streak + [now];
    forall i | 0 <= i && i + k < |longer| ensures longer[i + k] - longer[i] > RESET_TIMEOUT {
      if i + k == |s.streak| {
        CountedBefore(s, clock, i);
      } else {
        assert s.streak[i + k] - s.streak[i] > RESET_TIMEOUT;
      }
    }
  }

  lemma FailureKeepsGuards(s: System, m: nat, clock: real, now: real)
    requires Guards(s, m, clock) && clock <= now && s.inFlight > 0
    ensures Guards(Act(s, End(now, FAILS)), m, now)
  {
    FailureKeepsSpread(s, m, clock, now);
    hide SpreadBy;
    FailureKeepsCount(s, clock, now);
  }

  lemma FailureKeepsCount(s: System, clock: real, now: real)
    requires Counted(s, clock) && Rising(s.streak) && clock <= now
    ensures Counted(Act(s, End(now, FAILS)), now) && Rising(s.streak + [now])
  {
  }

  lemma BeginKeepsGuards(s: System, m: nat, clock: real, now: real)
    requires Guards(s, m, clock) && clock <= now && Act(s, Begin(now)).inFlight <= m
    ensures Guards(Act(s, Begin(now)), m, now)
  {
    hide SpreadBy, Rising;
  }

  function Clock(actions: seq<Action>): real {
    if |actions| == 0 then 0.0 else actions[|actions| - 1].now
  }

  lemma OtherEndsKeepGuards(s: System, m: nat, clock: real, now: real, outcome: CallOutcome)
    requires Guards(s, m, clock) && clock <= now && !outcome.FAILS?
    ensures Guards(Act(s, End(now, outcome)), m, now)
  {
    hide SpreadBy, Rising;
    NothingSpread(THRESHOLD - 1 + m);
  }

  lemma NothingSpread(k: nat)
    ensures SpreadBy([], k) && Rising([])
  {
  }

  lemma {:induction false} ActionsAreGuarded(actions: seq<Action>, m: nat, clock: real)
    requires m >= 1 && Admissible(actions, m) && (|actions| > 0 ==> clock == actions[|actions| - 1].now)
    ensures Guards(AfterActions(actions), m, clock)
  {
    hide Guards, Act;
    if |actions| == 0 {
      StartIsGuarded(m, clock);
    } else {
      var init, last := actions[..|actions| - 1], actions[|actions| - 1];
      var before := if |init| > 0 then init[|init| - 1].now else last.now;
      ActionsAreGuarded(init, m, before);
      var s := AfterActions(init);
      match last {
        case Begin(now) => BeginKeepsGuards(s, m, before, now);
        case End(now, outcome) =>
          if outcome.FAILS? { FailureKeepsGuards(s, m, before, now); } else { OtherEndsKeepGuards(s, m, before, now, outcome); }
      }
    }
  }

  lemma StartIsGuarded(m: nat, clock: real)
    ensures Guards(START, m, clock)
  {
  }

  lemma SpreadGrows(streak: seq<real>, k: nat, more: nat)
    requires SpreadBy(streak, k) && Rising(streak) && k <= more
    ensures SpreadBy(streak, more)
  {
    forall i | 0 <= i && i + more < |streak| ensures streak[i + more] - streak[i] > RESET_TIMEOUT {
      assert streak[i + k] - streak[i] > RESET_TIMEOUT;
      assert k < more ==> streak[i + k] <= streak[i + more];
    }
  }

  // ---------- the bound is sharp ----------

  predicate AllAt(actions: seq<Action>, now: real) {
    forall i | 0 <= i < |actions| :: actions[i].now == now
  }

  lemma Extended(actions: seq<Action>, a: Action, m: nat)
    requires Admissible(actions, m) && AllAt(actions, a.now)
    requires (a.End? ==> AfterActions(actions).inFlight > 0) && Act(AfterActions(actions), a).inFlight <= m
    ensures Admissible(actions + [a], m) && AllAt(actions + [a], a.now)
    ensures AfterActions(actions + [a]) == Act(AfterActions(actions), a)
  {
    hide Act;
    assert (actions + [a])[..|actions|] == actions;
  }

  /** n calls that fail one after the other, all at one instant. */
  function Failing(now: real, n: nat): seq<Action> {
    if n == 0 then [] else Failing(now, n - 1) + [Begin(now)] + [End(now, FAILS)]
  }

  lemma NothingYet(now: real, m: nat)
    ensures Admissible([], m) && AllAt([], now) && AfterActions([]) == START
  {
  }

  lemma {:induction false} FourMayFail(now: real, n: nat, m: nat)
    requires n < THRESHOLD && m >= 1
    ensures Admissible(Failing(now, n), m) && AllAt(Failing(now, n), now)
    ensures var s := AfterActions(Failing(now, n));
            s.inFlight == 0 && s.streak == Repeat(now, n) && s.c.failureCount == n && !s.c.open
  {
    hide Admissible, AllAt, AfterActions;
    if n == 0 {
      NothingYet(now, m);
    } else {
      FourMayFail(now, n - 1, m);
      Extended(Failing(now, n - 1), Begin(now), m);
      Extended(Failing(now, n - 1) + [Begin(now)], End(now, FAILS), m);
    }
  }

  lemma Acts(s: System, now: real)
    ensures !s.c.open ==> Act(s, Begin(now)) == s.(inFlight := s.inFlight + 1)
    ensures s.inFlight > 0 ==> Act(s, End(now, FAILS)).inFlight == s.inFlight - 1
    ensures Act(s, End(now, FAILS)).streak == s.streak + [now]
  {
  }

  lemma {:induction false} AllMayBegin(actions: seq<Action>, now: real, n: nat, m: nat)
    requires Admissible(actions, m) && AllAt(actions, now) && n <= m
    requires AfterActions(actions).inFlight == 0 && !AfterActions(actions).c.open
    ensures var longer := actions + Repeat(Begin(now), n);
            && Admissible(longer, m) && AllAt(longer, now)
            && AfterActions(longer) == AfterActions(actions).(inFlight := n)
  {
    hide *;
    if n == 0 {
      RepeatAfter(actions, Begin(now), 0);
    } else {
      var shorter := actions + Repeat(Begin(now), n - 1);
      AllMayBegin(actions, now, n - 1, m);
      Acts(AfterActions(shorter), now);
      Extended(shorter, Begin(now), m);
      RepeatAfter(actions, Begin(now), n);
    }
  }

  lemma {:induction false} AllMayFail(actions: seq<Action>, now: real, n: nat, m: nat)
    requires Admissible(actions, m) && AllAt(actions, now) && n <= AfterActions(actions).inFlight <= m
    ensures var longer := actions + Repeat(End(now, FAILS), n);
            && Admissible(longer, m) && AllAt(longer, now)
            && AfterActions(longer).inFlight == AfterActions(actions).inFlight - n
            && AfterActions(longer).streak == AfterActions(actions).streak + Repeat(now, n)
  {
    hide *;
    RepeatAfter(AfterActions(actions).streak, now, n);
    if n == 0 {
      RepeatAfter(actions, End(now, FAILS), 0);
    } else {
      var shorter := actions + Repeat(End(now, FAILS), n - 1);
      AllMayFail(actions, now, n - 1, m);
      Acts(AfterActions(shorter), now);
      Extended(shorter, End(now, FAILS), m);
      RepeatAfter(actions, End(now, FAILS), n);
    }
  }

  /** With m calls allowed in flight, 4 + m failures can fall on one instant. */
  lemma FailuresMayCoincide(m: nat, now: real) returns (actions: seq<Action>)
    requires m >= 1
    ensures Admissible(actions, m) && |AfterActions(actions).streak| == 4 + m
    ensures forall i | 0 <= i < 4 + m :: AfterActions(actions).streak[i] == now
  {
    var failed := Failing(now, THRESHOLD - 1);
    FourMayFail(now, THRESHOLD - 1, m);
    AllMayBegin(failed, now, m, m);
    var begun := failed + Repeat(Begin(now), m);
    AllMayFail(begun, now, m, m);
    actions := begun + Repeat(End(now, FAILS), m);
    RepeatedElements(now, THRESHOLD - 1);
    RepeatedElements(now, m);
  }

  /** With at most m calls in flight, k + 1 consecutive failures without a success between them always span more than
      60 seconds if and only if k is at least 4 + m: six failures for sequential calls, one more for each further
      call that may overlap. */
  lemma FailuresAreRateBoundedExactly(m: nat, k: nat)
    requires m >= 1
    ensures k >= 4 + m <==> forall actions | Admissible(actions, m) :: SpreadBy(AfterActions(actions).streak, k)
  {
    if k >= THRESHOLD - 1 + m {
      forall actions | Admissible(actions, m) ensures SpreadBy(AfterActions(actions).streak, k) {
        ActionsAreGuarded(actions, m, Clock(actions));
        SpreadGrows(AfterActions(actions).streak, THRESHOLD - 1 + m, k);
      }
    } else {
      var actions := FailuresMayCoincide(m, 0.0);
      assert AfterActions(actions).streak[0 + k] == AfterActions(actions).streak[0];
    }
  }

  // ---------- after a rest ----------

  /** The circuit after n sequential calls that all fail at one instant. */
  function AfterFailing(c: Circuit, now: real, n: nat): Circuit {
    if n == 0 then c else AfterCall(AfterFailing(c, now, n - 1), Call(now, now, FAILS))
  }

  /** An open circuit that has rested lets not one probe pass but five failing calls, and blocks the sixth. */
  lemma RestedCircuitLetsFivePass(c: Circuit, now: real)
    requires c.open && !Blocks(c, now)
    ensures forall n: nat | n < 5 :: !Blocks(AfterFailing(c, now, n), now)
    ensures Blocks(AfterFailing(c, now, 5), now)
  {
    forall n: nat | n <= THRESHOLD
      ensures n > 0 ==> AfterFailing(c, now, n) == Circuit(n, now, n >= THRESHOLD)
    {
      FailingCounts(c, now, n);
    }
  }

  lemma {:induction false} FailingCounts(c: Circuit, now: real, n: nat)
    requires c.open && !Blocks(c, now) && n <= THRESHOLD
    ensures n > 0 ==> AfterFailing(c, now, n) == Circuit(n, now, n >= THRESHOLD)
  {
    if n > 1 { FailingCounts(c, now, n - 1); }
  }
}
