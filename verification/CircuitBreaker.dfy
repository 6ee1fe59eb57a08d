/** The circuit breaker around exchange calls, and the bound it puts on failing calls. */
module CircuitBreaker {
  import opened Repeats

  const THRESHOLD := 5
  const RESET_TIMEOUT := 60.0

  datatype Circuit = Circuit(failureCount: nat, lastFailureTime: real, open: bool)

  const CLOSED_CIRCUIT := Circuit(0, 0.0, false)

  // ---------- the atomic steps ----------

  function OnSuccess(c: Circuit): Circuit {
    c.(failureCount := 0, open := false)
  }

  function OnFailure(c: Circuit, now: real): Circuit {
    Circuit(c.failureCount + 1, now, c.open || c.failureCount + 1 >= THRESHOLD)
  }

  predicate Blocks(c: Circuit, now: real) {
    c.open && now - c.lastFailureTime <= RESET_TIMEOUT
  }

  /** Asking whether the circuit is open closes it when it has rested long enough. */
  function OnCheck(c: Circuit, now: real): Circuit {
    if c.open && !Blocks(c, now) then c.(open := false, failureCount := 0) else c
  }

  class CircuitState {
    var failureCount: nat
    var lastFailureTime: real
    var open: bool

    ghost function View(): Circuit
      reads this
    {
      Circuit(failureCount, lastFailureTime, open)
    }

    constructor ()
      ensures View() == CLOSED_CIRCUIT
    {
      failureCount, lastFailureTime, open := 0, 0.0, false;
    }

    method RecordSuccess()
      modifies this
      ensures View() == OnSuccess(old(View()))
    {
      failureCount := 0;
      open := false;
    }

    method RecordFailure(now: real)
      modifies this
      ensures View() == OnFailure(old(View()), now)
    {
      failureCount := failureCount + 1;
      lastFailureTime := now;
      if failureCount >= THRESHOLD {
        open := true;
      }
    }

    method IsOpen(now: real) returns (blocked: bool)
      modifies this
      ensures View() == OnCheck(old(View()), now)
      ensures blocked == Blocks(old(View()), now)
    {
      if !open {
        return false;
      }
      if now - lastFailureTime > RESET_TIMEOUT {
        open := false;
        failureCount := 0;
        return false;
      }
      return true;
    }

    /** One attempt of the wrapped call: blocked, or made and recorded. */
    method Attempt(call: Call) returns (result: Result)
      modifies this
      ensures View() == AfterCall(old(View()), call) && result == ResultOf(old(View()), call)
    {
      var blocked := IsOpen(call.start);
      if blocked {
        return BLOCKED;
      }
      match call.outcome {
        case SUCCEEDS => RecordSuccess(); result := SUCCEEDED;
        case FAILS => RecordFailure(call.end); result := FAILED;
        case GOES_UNRECORDED => result := UNRECORDED;
      }
    }
  }

  // ---------- calls ----------

  /** What the wrapped function would do; an open inner circuit or a cancellation is not recorded. */
  datatype CallOutcome = SUCCEEDS | FAILS | GOES_UNRECORDED

  datatype Call = Call(start: real, end: real, outcome: CallOutcome)

  datatype Result = BLOCKED | SUCCEEDED | FAILED | UNRECORDED

  function ResultOf(c: Circuit, call: Call): Result {
    if Blocks(c, call.start) then BLOCKED
    else match call.outcome
      case SUCCEEDS => SUCCEEDED
      case FAILS => FAILED
      case GOES_UNRECORDED => UNRECORDED
  }

  function AfterCall(c: Circuit, call: Call): Circuit {
    var checked := OnCheck(c, call.start);
    match ResultOf(c, call)
    case BLOCKED => checked
    case SUCCEEDED => OnSuccess(checked)
    case FAILED => OnFailure(checked, call.end)
    case UNRECORDED => checked
  }

  function AfterCalls(calls: seq<Call>): Circuit {
    if |calls| == 0 then CLOSED_CIRCUIT
    else AfterCall(AfterCalls(calls[..|calls| - 1]), calls[|calls| - 1])
  }

  /** The instants of the failures recorded since the last success. */
  function Streak(calls: seq<Call>): seq<real> {
    if |calls| == 0 then []
    else
      var init, last := calls[..|calls| - 1], calls[|calls| - 1];
      match ResultOf(AfterCalls(init), last)
      case SUCCEEDED => []
      case FAILED => Streak(init) + [last.end]
      case _ => Streak(init)
  }

  /** One call at a time, on a monotonic clock. */
  predicate Sequential(calls: seq<Call>) {
    && (forall i | 0 <= i < |calls| :: calls[i].start <= calls[i].end)
    && (forall i, j | 0 <= i < j < |calls| :: calls[i].end <= calls[j].start)
  }

  // ---------- the bound ----------

  predicate Latched(c: Circuit) {
    c.open <==> c.failureCount >= 5
  }

  /** Six consecutive failures of the streak span more than the timeout. */
  predicate Spread(streak: seq<real>) {
    forall i | 0 <= i && i + 5 < |streak| :: streak[i + 5] - streak[i] > 60.0
  }

  /** The current count is the tail of the streak since the circuit last closed by itself, and a rest
      longer than the timeout lies before that tail. */
  predicate Rested(c: Circuit, streak: seq<real>, clock: real) {
    && c.failureCount <= THRESHOLD && c.failureCount <= |streak|
    && (c.failureCount > 0 ==> c.lastFailureTime == streak[|streak| - 1])
    && (forall i | 0 <= i < |streak| :: streak[i] <= clock)
    && (c.failureCount < |streak| ==>
          var before := streak[|streak| - c.failureCount - 1];
          (if c.failureCount == 0 then clock else streak[|streak| - c.failureCount]) - before > RESET_TIMEOUT)
  }

  predicate Rising(streak: seq<real>) {
    forall i, j | 0 <= i < j < |streak| :: streak[i] <= streak[j]
  }

  ghost predicate Guarded(c: Circuit, streak: seq<real>, clock: real) {
    Latched(c) && Rested(c, streak, clock) && Rising(streak) && Spread(streak)
  }

  /** Closing after a rest starts a new tail; time passing keeps the rest. */
  lemma CheckKeepsGuarded(c: Circuit, streak: seq<real>, clock: real, now: real)
    requires Guarded(c, streak, clock) && clock <= now
    ensures Guarded(OnCheck(c, now), streak, now)
    ensures !Blocks(c, now) ==> OnCheck(c, now).failureCount < THRESHOLD
  {
  }

  /** With fewer than five in the tail, the fifth failure back lies before the rest. */
  lemma FifthBackIsOld(c: Circuit, streak: seq<real>, clock: real, now: real)
    requires Rested(c, streak, clock) && Rising(streak) && clock <= now
    requires c.failureCount < THRESHOLD <= |streak|
    ensures now - streak[|streak| - THRESHOLD] > RESET_TIMEOUT
  {
    var tail := |streak| - c.failureCount;
    var before := streak[tail - 1];
    assert streak[|streak| - THRESHOLD] <= before;
    var since := if c.failureCount == 0 then clock else streak[tail];
    assert since <= now && since - before > RESET_TIMEOUT;
  }

  lemma FailureKeepsGuarded(c: Circuit, streak: seq<real>, clock: real, now: real)
    requires Guarded(c, streak, clock) && clock <= now && c.failureCount < THRESHOLD
    ensures Guarded(OnFailure(c, now), streak + [now], now)
  {
    SpreadGrows(c, streak, clock, now);
    RestedGrows(c, streak, clock, now);
  }

  lemma SpreadGrows(c: Circuit, streak: seq<real>, clock: real, now: real)
    requires Rested(c, streak, clock) && Rising(streak) && Spread(streak) && clock <= now && c.failureCount < THRESHOLD
    ensures Spread(streak + [now])
  {
    var streak' := streak + [now];
    if |streak| >= THRESHOLD { FifthBackIsOld(c, streak, clock, now); }
    forall i | 0 <= i && i + THRESHOLD < |streak'|
      ensures streak'[i + THRESHOLD] - streak'[i] > RESET_TIMEOUT
    {
      if i + THRESHOLD < |streak| { assert streak[i + THRESHOLD] - streak[i] > RESET_TIMEOUT; }
    }
  }

  lemma RestedGrows(c: Circuit, streak: seq<real>, clock: real, now: real)
    requires Rested(c, streak, clock) && Rising(streak) && clock <= now && c.failureCount < THRESHOLD
    ensures Rested(OnFailure(c, now), streak + [now], now) && Rising(streak + [now])
  {
  }

  function ClockAfter(calls: seq<Call>): real {
    if |calls| == 0 then 0.0 else calls[|calls| - 1].end
  }

  lemma {:induction false} SequentialCallsAreGuarded(calls: seq<Call>)
    requires Sequential(calls) && (|calls| > 0 ==> calls[0].start >= 0.0)
    ensures Guarded(AfterCalls(calls), Streak(calls), ClockAfter(calls))
  {
    if |calls| > 0 {
      var init, last := calls[..|calls| - 1], calls[|calls| - 1];
      SequentialCallsAreGuarded(init);
      var c, streak := AfterCalls(init), Streak(init);
      assert ClockAfter(init) <= last.start <= last.end;
      CheckKeepsGuarded(c, streak, ClockAfter(init), last.start);
      var checked := OnCheck(c, last.start);
      match ResultOf(c, last) {
        case FAILED => FailureKeepsGuarded(checked, streak, last.start, last.end);
        case SUCCEEDED =>
        case BLOCKED => LaterIsGuarded(checked, streak, last.start, last.end);
        case UNRECORDED => LaterIsGuarded(checked, streak, last.start, last.end);
      }
    }
  }

  lemma LaterIsGuarded(c: Circuit, streak: seq<real>, clock: real, later: real)
    requires Guarded(c, streak, clock) && clock <= later
    ensures Guarded(c, streak, later)
  {
  }

  /** In every sequential run the circuit is open exactly at five failures or more, and any six
      consecutive failing calls without a success between them span more than 60 seconds. */
  lemma FailuresAreRateBounded(calls: seq<Call>)
    requires Sequential(calls) && (|calls| > 0 ==> calls[0].start >= 0.0)
    ensures Latched(AfterCalls(calls)) && Spread(Streak(calls))
  {
    SequentialCallsAreGuarded(calls);
  }

  // ---------- calls that overlap ----------

  /** The atomic steps of overlapping calls, in the order they happen. */
  datatype Event = Check(now: real) | Succeed | Fail(now: real)

  function OnEvent(c: Circuit, e: Event): Circuit {
    match e
    case Check(now) => OnCheck(c, now)
    case Succeed => OnSuccess(c)
    case Fail(now) => OnFailure(c, now)
  }

  function OnEvents(events: seq<Event>): Circuit {
    if |events| == 0 then CLOSED_CIRCUIT
    else OnEvent(OnEvents(events[..|events| - 1]), events[|events| - 1])
  }

  /** However calls interleave, the circuit is open exactly at five failures or more. */
  lemma {:induction false} AlwaysLatched(events: seq<Event>)
    ensures Latched(OnEvents(events))
  {
    if |events| > 0 {
      AlwaysLatched(events[..|events| - 1]);
    }
  }

  /** Whatever happened before: a failure blocks calls if and only if it is the fifth or a later one that counts, and
      for 60 seconds; a success clears the count, and so does the first check after those 60 seconds. */
  lemma BlocksForAMinute(events: seq<Event>, at: real, now: real)
    ensures var c := OnEvents(events);
            && (Blocks(OnEvents(events + [Fail(at)]), now) <==> c.failureCount >= 4 && now - at <= 60.0)
            && OnEvents(events + [Fail(at)]).failureCount == c.failureCount + 1
            && OnEvents(events + [Fail(at)]).lastFailureTime == at
            && OnEvents(events + [Succeed]).failureCount == 0
            && OnEvents(events + [Check(now)]).failureCount
               == (if c.failureCount >= 5 && now - c.lastFailureTime > 60.0 then 0 else c.failureCount)
  {
    AlwaysLatched(events);
    assert (events + [Fail(at)])[..|events|] == events;
    assert (events + [Succeed])[..|events|] == events;
    assert (events + [Check(now)])[..|events|] == events;
  }

  lemma {:induction false} ChecksPass(n: nat, now: real)
    ensures OnEvents(Repeat(Check(now), n)) == CLOSED_CIRCUIT
  {
    if n > 0 {
      ChecksPass(n - 1, now);
      assert Repeat(Check(now), n)[..|Repeat(Check(now), n)| - 1] == Repeat(Check(now), n - 1);
    }
  }

  lemma {:induction false} FailuresAddUp(events: seq<Event>, n: nat, now: real)
    ensures OnEvents(events + Repeat(Fail(now), n)).failureCount == OnEvents(events).failureCount + n
  {
    if n > 0 {
      FailuresAddUp(events, n - 1, now);
      assert (events + Repeat(Fail(now), n))[..|events + Repeat(Fail(now), n)| - 1] == events + Repeat(Fail(now), n - 1);
    } else {
      assert events + [] == events;
    }
  }

  /** The rate bound needs the calls to be sequential: any number of overlapping ones can pass the check
      and then fail at one instant. */
  lemma OverlappingCallsAreUnbounded(n: nat, now: real)
    ensures forall k: nat :: !Blocks(OnEvents(Repeat(Check(now), k)), now)
    ensures OnEvents(Repeat(Check(now), n) + Repeat(Fail(now), n)).failureCount == n
  {
    forall k: nat ensures !Blocks(OnEvents(Repeat(Check(now), k)), now) {
      ChecksPass(k, now);
    }
    ChecksPass(n, now);
    FailuresAddUp(Repeat(Check(now), n), n, now);
  }
}
