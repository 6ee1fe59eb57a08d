/**
 The real-time trade stream of each symbol: a sliding window of recent trades, a running volume
 delta, and a trigger held back by a cooldown.
 */
module EventEngine {

  // Seconds and dollars.
  const WINDOW_SECONDS := 60.0
  const TRIGGER_COOLDOWN_SECONDS := 30.0
  const MIN_WINDOW_NOTIONAL := 5000.0
  const IMBALANCE_THRESHOLD := 0.60

  datatype TradeRecord = TradeRecord(ts: real, notional: real, isBuy: bool)

  /** One trade message, the instant it is processed, and what the volume lookup would answer then. */
  datatype Tick = Tick(now: real, price: real, quantity: real, buyerIsMaker: bool, rvol: real, rvolThreshold: real)
  {
    function Record(): TradeRecord {
      TradeRecord(now, price * quantity, !buyerIsMaker)
    }
  }

  /** What the engine keeps about one symbol. */
  datatype Stream = Stream(window: seq<TradeRecord>, cvd: real, lastTrigger: real)

  const FRESH := Stream([], 0.0, 0.0)

  // ---------- one trade ----------

  function Signed(r: TradeRecord): real {
    if r.isBuy then r.notional else -r.notional
  }

  /** Drops records from the front while they are older than the cutoff. */
  function Evict(window: seq<TradeRecord>, cutoff: real): seq<TradeRecord> {
    if |window| > 0 && window[0].ts < cutoff then Evict(window[1..], cutoff) else window
  }

  function NotionalOf(window: seq<TradeRecord>, buys: bool): real {
    if |window| == 0 then 0.0
    else
      var last := window[|window| - 1];
      NotionalOf(window[..|window| - 1], buys) + if last.isBuy == buys then last.notional else 0.0
  }

  function TotalNotional(window: seq<TradeRecord>): real {
    NotionalOf(window, true) + NotionalOf(window, false)
  }

  predicate Directional(window: seq<TradeRecord>) {
    TotalNotional(window) >= MIN_WINDOW_NOTIONAL &&
    var imbalance := NotionalOf(window, true) / TotalNotional(window);
    imbalance > IMBALANCE_THRESHOLD || imbalance < 1.0 - IMBALANCE_THRESHOLD
  }

  predicate Triggers(window: seq<TradeRecord>, lastTrigger: real, tick: Tick) {
    && Directional(window)
    && tick.rvol >= tick.rvolThreshold
    && tick.now - lastTrigger > TRIGGER_COOLDOWN_SECONDS
  }

  function NextWindow(s: Stream, tick: Tick): seq<TradeRecord> {
    Evict(s.window + [tick.Record()], tick.now - WINDOW_SECONDS)
  }

  predicate Fires(s: Stream, tick: Tick) {
    Triggers(NextWindow(s, tick), s.lastTrigger, tick)
  }

  function OnTrade(s: Stream, tick: Tick): Stream {
    Stream(NextWindow(s, tick), s.cvd + Signed(tick.Record()), if Fires(s, tick) then tick.now else s.lastTrigger)
  }

  class EventEngine {
    var windows: map<string, seq<TradeRecord>>
    var cvd: map<string, real>
    var lastTriggerTime: map<string, real>

    constructor ()
      ensures forall symbol :: StreamOf(symbol) == FRESH
    {
      windows, cvd, lastTriggerTime := map[], map[], map[];
    }

    ghost function StreamOf(symbol: string): Stream
      reads this
    {
      Stream(if symbol in windows then windows[symbol] else [],
             if symbol in cvd then cvd[symbol] else 0.0,
             if symbol in lastTriggerTime then lastTriggerTime[symbol] else 0.0)
    }

    /** Processes one trade; `triggered` says whether a trading cycle is started. */
    method ProcessTrade(symbol: string, tick: Tick) returns (triggered: bool)
      modifies this
      ensures StreamOf(symbol) == OnTrade(old(StreamOf(symbol)), tick)
      ensures triggered == Fires(old(StreamOf(symbol)), tick)
      ensures forall other | other != symbol :: StreamOf(other) == old(StreamOf(other))
    {
      hide Signed, Evict, NotionalOf;
      var record := tick.Record();
      var delta := if symbol in cvd then cvd[symbol] else 0.0;
      cvd := cvd[symbol := delta + Signed(record)];

      var window := (if symbol in windows then windows[symbol] else []) + [record];
      window := EvictOld(window, tick.now - WINDOW_SECONDS);
      windows := windows[symbol := window];

      var last := if symbol in lastTriggerTime then lastTriggerTime[symbol] else 0.0;
      triggered := DetectSpike(window, last, tick);
      if triggered {
        lastTriggerTime := lastTriggerTime[symbol := tick.now];
      }
    }
  }

  method EvictOld(trades: seq<TradeRecord>, cutoff: real) returns (window: seq<TradeRecord>)
    ensures window == Evict(trades, cutoff)
  {
    window := trades;
    while |window| > 0 && window[0].ts < cutoff
      invariant Evict(window, cutoff) == Evict(trades, cutoff)
      decreases |window|
    {
      window := window[1..];
    }
  }

  method DetectSpike(window: seq<TradeRecord>, lastTrigger: real, tick: Tick) returns (triggered: bool)
    ensures triggered == Triggers(window, lastTrigger, tick)
  {
    var buyNotional := NotionalOf(window, true);
    var totalNotional := TotalNotional(window);
    if totalNotional < MIN_WINDOW_NOTIONAL {
      return false;
    }
    var imbalance := buyNotional / totalNotional;
    if !(imbalance > IMBALANCE_THRESHOLD || imbalance < 1.0 - IMBALANCE_THRESHOLD) {
      return false;
    }
    if tick.rvol < tick.rvolThreshold {
      return false;
    }
    return tick.now - lastTrigger > TRIGGER_COOLDOWN_SECONDS;
  }

  // ---------- the whole stream of a symbol ----------

  function After(ticks: seq<Tick>): Stream {
    if |ticks| == 0 then FRESH else OnTrade(After(ticks[..|ticks| - 1]), ticks[|ticks| - 1])
  }

  function Records(ticks: seq<Tick>): seq<TradeRecord> {
    if |ticks| == 0 then [] else Records(ticks[..|ticks| - 1]) + [ticks[|ticks| - 1].Record()]
  }

  /** The records no older than the cutoff, in order. */
  function Recent(records: seq<TradeRecord>, cutoff: real): seq<TradeRecord> {
    if |records| == 0 then []
    else
      var last := records[|records| - 1];
      Recent(records[..|records| - 1], cutoff) + if last.ts >= cutoff then [last] else []
  }

  function SignedSum(records: seq<TradeRecord>): real {
    if |records| == 0 then 0.0
    else SignedSum(records[..|records| - 1]) + Signed(records[|records| - 1])
  }

  predicate Forward(ticks: seq<Tick>) {
    forall i, j | 0 <= i < j < |ticks| :: ticks[i].now <= ticks[j].now
  }

  predicate Ordered(records: seq<TradeRecord>) {
    forall i, j | 0 <= i < j < |records| :: records[i].ts <= records[j].ts
  }

  lemma RecentAppend(records: seq<TradeRecord>, r: TradeRecord, cutoff: real)
    ensures Recent(records + [r], cutoff) == Recent(records, cutoff) + if r.ts >= cutoff then [r] else []
  {
    assert (records + [r])[..|records|] == records;
  }

  lemma {:induction false} RecentDropsFront(records: seq<TradeRecord>, cutoff: real)
    requires |records| > 0 && records[0].ts < cutoff
    ensures Recent(records, cutoff) == Recent(records[1..], cutoff)
  {
    var n := |records| - 1;
    if n > 0 {
      RecentDropsFront(records[..n], cutoff);
      assert records[1..][..n - 1] == records[..n][1..];
    }
  }

  lemma {:induction false} RecentKeepsAll(records: seq<TradeRecord>, cutoff: real)
    requires forall i | 0 <= i < |records| :: records[i].ts >= cutoff
    ensures Recent(records, cutoff) == records
  {
    hide *;
    if |records| == 0 {
      assert records == [];
      NothingRecent(cutoff);
    } else {
      var init, last := records[..|records| - 1], records[|records| - 1];
      RecentKeepsAll(init, cutoff);
      RecentAppend(init, last, cutoff);
      assert init + [last] == records;
    }
  }

  /** For records in time order, dropping old ones from the front keeps exactly the recent ones. */
  lemma {:induction false} EvictKeepsRecent(records: seq<TradeRecord>, cutoff: real)
    requires Ordered(records)
    ensures Evict(records, cutoff) == Recent(records, cutoff)
    decreases |records|
  {
    if |records| > 0 && records[0].ts < cutoff {
      EvictKeepsRecent(records[1..], cutoff);
      RecentDropsFront(records, cutoff);
    } else {
      RecentKeepsAll(records, cutoff);
    }
  }

  /** Filtering by a later cutoff forgets that an earlier one was applied. */
  lemma {:induction false} RecentTwice(records: seq<TradeRecord>, early: real, late: real)
    requires early <= late
    ensures Recent(Recent(records, early), late) == Recent(records, late)
  {
    hide *;
    if |records| == 0 {
      assert records == [];
      NothingRecent(early);
    } else {
      var init, last := records[..|records| - 1], records[|records| - 1];
      RecentTwice(init, early, late);
      assert init + [last] == records;
      assert Recent(init, early) + [] == Recent(init, early);
      RecentAppend(init, last, early);
      RecentAppend(init, last, late);
      RecentAppend(Recent(init, early), last, late);
    }
  }

  lemma {:induction false} RecordsFollowTicks(ticks: seq<Tick>)
    ensures |Records(ticks)| == |ticks|
    ensures forall i | 0 <= i < |ticks| :: Records(ticks)[i] == ticks[i].Record()
  {
    if |ticks| > 0 {
      RecordsFollowTicks(ticks[..|ticks| - 1]);
    }
  }

  lemma {:induction false} RecentIsOrdered(records: seq<TradeRecord>, cutoff: real, bound: real)
    requires Ordered(records) && forall i | 0 <= i < |records| :: records[i].ts <= bound
    ensures Ordered(Recent(records, cutoff))
    ensures forall i | 0 <= i < |Recent(records, cutoff)| :: Recent(records, cutoff)[i].ts <= bound
  {
    if |records| > 0 {
      RecentIsOrdered(records[..|records| - 1], cutoff, records[|records| - 1].ts);
    }
  }

  /** One more record: evicting from the last window gives the recent part of the longer history. */
  lemma WindowStep(records: seq<TradeRecord>, early: real, r: TradeRecord, cutoff: real)
    requires Ordered(records) && early <= cutoff && forall x | x in records :: x.ts <= r.ts
    ensures Evict(Recent(records, early) + [r], cutoff) == Recent(records + [r], cutoff)
  {
    var window := Recent(records, early);
    RecentIsOrdered(records, early, r.ts);
    EvictKeepsRecent(window + [r], cutoff);
    RecentAppend(window, r, cutoff);
    RecentTwice(records, early, cutoff);
    RecentAppend(records, r, cutoff);
  }

  /** What one more tick does to the stream and to the history. */
  lemma AfterOneMore(ticks: seq<Tick>)
    requires |ticks| > 0
    ensures var init, last := ticks[..|ticks| - 1], ticks[|ticks| - 1];
            && After(ticks).window == Evict(After(init).window + [last.Record()], last.now - WINDOW_SECONDS)
            && After(ticks).cvd == After(init).cvd + Signed(last.Record())
            && After(ticks).lastTrigger == (if Fires(After(init), last) then last.now else After(init).lastTrigger)
            && Records(ticks) == Records(init) + [last.Record()]
            && SignedSum(Records(ticks)) == SignedSum(Records(init)) + Signed(last.Record())
  {
    hide Fires, Signed, Evict;
    var init, last := ticks[..|ticks| - 1], ticks[|ticks| - 1];
    assert (Records(init) + [last.Record()])[..|Records(init)|] == Records(init);
  }

  lemma NothingAfter()
    ensures After([]).window == [] && After([]).cvd == 0.0 && Records([]) == [] && SignedSum([]) == 0.0
  {
  }

  lemma ForwardInit(ticks: seq<Tick>)
    requires Forward(ticks) && |ticks| > 1
    ensures Forward(ticks[..|ticks| - 1]) && ticks[|ticks| - 2].now <= ticks[|ticks| - 1].now
  {
  }

  /** On a forward clock the window after each trade is exactly the symbol's trades of the last 60
      seconds, and the delta is the signed sum of its whole history. */
  lemma {:induction false} WindowIsLastMinute(ticks: seq<Tick>)
    requires Forward(ticks) && |ticks| > 0
    ensures After(ticks).window == Recent(Records(ticks), ticks[|ticks| - 1].now - WINDOW_SECONDS)
    ensures After(ticks).cvd == SignedSum(Records(ticks))
  {
    hide *;
    var init, last := ticks[..|ticks| - 1], ticks[|ticks| - 1];
    var r, cutoff := last.Record(), last.now - WINDOW_SECONDS;
    RecordTime(last);
    TicksOrderRecords(ticks);
    AfterOneMore(ticks);
    if |init| > 0 {
      ForwardInit(ticks);
      WindowIsLastMinute(init);
      WindowStep(Records(init), init[|init| - 1].now - WINDOW_SECONDS, r, cutoff);
    } else {
      assert init == [];
      NothingAfter();
      NothingRecent(cutoff);
      WindowStep([], cutoff, r, cutoff);
    }
  }

  lemma RecordTime(tick: Tick)
    ensures tick.Record().ts == tick.now
  {
  }

  lemma NothingRecent(cutoff: real)
    ensures Recent([], cutoff) == [] && Ordered([])
  {
  }

  lemma TicksOrderRecords(ticks: seq<Tick>)
    requires Forward(ticks) && |ticks| > 0
    ensures Ordered(Records(ticks[..|ticks| - 1]))
    ensures forall x | x in Records(ticks[..|ticks| - 1]) :: x.ts <= ticks[|ticks| - 1].now
  {
    RecordsFollowTicks(ticks[..|ticks| - 1]);
  }

  // ---------- triggers ----------

  /** Which of the ticks start a cycle. */
  predicate FiresAt(ticks: seq<Tick>, i: nat)
    requires i < |ticks|
  {
    Fires(After(ticks[..i]), ticks[i])
  }

  lemma {:induction false} LastTriggerCovers(ticks: seq<Tick>, i: nat)
    requires Forward(ticks) && i < |ticks| && FiresAt(ticks, i)
    ensures ticks[i].now <= After(ticks).lastTrigger
  {
    hide Fires, After, Forward;
    var n := |ticks| - 1;
    var init := ticks[..n];
    AfterOneMore(ticks);
    if i < n {
      assert init[..i] == ticks[..i];
      ForwardInit(ticks);
      LastTriggerCovers(init, i);
      if Fires(After(init), ticks[n]) { FiringIsDirectional(After(init), ticks[n]); }
    }
  }

  lemma FiringIsDirectional(s: Stream, tick: Tick)
    requires Fires(s, tick)
    ensures Directional(OnTrade(s, tick).window) && tick.rvol >= tick.rvolThreshold
    ensures tick.now - s.lastTrigger > TRIGGER_COOLDOWN_SECONDS
  {
  }

  /** Two triggers of a symbol are more than 30 seconds apart, and each came on a directional minute
      of enough volume. */
  lemma TriggersAreSpaced(ticks: seq<Tick>, i: nat, j: nat)
    requires Forward(ticks) && i < j < |ticks| && FiresAt(ticks, i) && FiresAt(ticks, j)
    ensures ticks[j].now - ticks[i].now > TRIGGER_COOLDOWN_SECONDS
    ensures var minute := Recent(Records(ticks[..j + 1]), ticks[j].now - WINDOW_SECONDS);
            Directional(minute) && ticks[j].rvol >= ticks[j].rvolThreshold
  {
    hide *;
    var before, upTo := ticks[..j], ticks[..j + 1];
    ForwardTo(ticks, i, j);
    LastTriggerCovers(before, i);
    FiresMeans(ticks, j);
    FiringIsDirectional(After(before), ticks[j]);
    TriggerWindow(upTo);
    assert upTo[..|upTo| - 1] == before && upTo[|upTo| - 1] == ticks[j];
    WindowIsLastMinute(upTo);
  }

  lemma FiresMeans(ticks: seq<Tick>, i: nat)
    requires i < |ticks| && FiresAt(ticks, i)
    ensures Fires(After(ticks[..i]), ticks[i])
  {
    hide Fires, After;
  }

  lemma ForwardTo(ticks: seq<Tick>, i: nat, j: nat)
    requires Forward(ticks) && i < j < |ticks| && FiresAt(ticks, i)
    ensures Forward(ticks[..j]) && Forward(ticks[..j + 1]) && FiresAt(ticks[..j], i)
  {
    hide Fires, After;
    assert ticks[..j][..i] == ticks[..i];
  }

  lemma TriggerWindow(ticks: seq<Tick>)
    requires |ticks| > 0
    ensures After(ticks).window == OnTrade(After(ticks[..|ticks| - 1]), ticks[|ticks| - 1]).window
  {
    hide OnTrade;
  }
}
