/** When the event engine starts a trading cycle, in terms of the trades themselves. */
module SpikeTriggers {
  import opened EventEngine

  /** Notional of the trades since an instant that were bought by the taker, or sold. */
  function Volume(ticks: seq<Tick>, since: real, bought: bool): real {
    if |ticks| == 0 then 0.0
    else
      var last := ticks[|ticks| - 1];
      Volume(ticks[..|ticks| - 1], since, bought)
      + if last.now >= since && (bought <==> !last.buyerIsMaker) then last.price * last.quantity else 0.0
  }

  /** At least 5000 in total, with more than 60% or less than 40% of it bought. */
  predicate Lopsided(bought: real, sold: real) {
    bought + sold >= 5000.0 && (bought / (bought + sold) > 0.60 || bought / (bought + sold) < 0.40)
  }

  lemma RecordIs(tick: Tick)
    ensures tick.Record() == TradeRecord(tick.now, tick.price * tick.quantity, !tick.buyerIsMaker)
  {
  }

  lemma NotionalAppend(window: seq<TradeRecord>, r: TradeRecord, buys: bool)
    ensures NotionalOf(window + [r], buys) == NotionalOf(window, buys) + if r.isBuy == buys then r.notional else 0.0
    ensures NotionalOf([], buys) == 0.0
  {
    assert (window + [r])[..|window|] == window;
  }

  lemma {:induction false} VolumeIsNotional(ticks: seq<Tick>, since: real, bought: bool)
    ensures NotionalOf(Recent(Records(ticks), since), bought) == Volume(ticks, since, bought)
  {
    hide NotionalOf, Recent;
    if |ticks| == 0 {
      NothingRecent(since);
      NotionalAppend([], TradeRecord(0.0, 0.0, true), bought);
    } else {
      var init, last := ticks[..|ticks| - 1], ticks[|ticks| - 1];
      VolumeIsNotional(init, since, bought);
      RecentAppend(Records(init), last.Record(), since);
      RecordIs(last);
      NotionalAppend(Recent(Records(init), since), last.Record(), bought);
      assert Recent(Records(init), since) + [] == Recent(Records(init), since);
    }
  }

  /** The running delta, too, is what was bought less what was sold. */
  function Delta(ticks: seq<Tick>): real {
    if |ticks| == 0 then 0.0
    else
      var last := ticks[|ticks| - 1];
      Delta(ticks[..|ticks| - 1]) + if last.buyerIsMaker then -(last.price * last.quantity) else last.price * last.quantity
  }

  lemma {:induction false} DeltaIsSigned(ticks: seq<Tick>)
    ensures After(ticks).cvd == Delta(ticks)
  {
    hide Fires, Evict;
    if |ticks| > 0 { DeltaIsSigned(ticks[..|ticks| - 1]); }
  }

  /** A tick before this one started a cycle, and this is when the last such one was. */
  lemma {:induction false} LastTriggerIs(ticks: seq<Tick>)
    requires Forward(ticks)
    ensures (forall i: nat | i < |ticks| && FiresAt(ticks, i) :: ticks[i].now <= After(ticks).lastTrigger)
    ensures (exists i: nat :: i < |ticks| && FiresAt(ticks, i) && ticks[i].now == After(ticks).lastTrigger)
            || ((forall i: nat | i < |ticks| :: !FiresAt(ticks, i)) && After(ticks).lastTrigger == 0.0)
  {
    hide Fires, After, FiresAt;
    forall i: nat | i < |ticks| && FiresAt(ticks, i) ensures ticks[i].now <= After(ticks).lastTrigger {
      LastTriggerCovers(ticks, i);
    }
    if |ticks| == 0 {
      NothingFired();
    } else {
      var n := |ticks| - 1;
      var init := ticks[..n];
      LastTriggerIs(init);
      AfterOneMore(ticks);
      forall i: nat | i < n ensures FiresAt(init, i) <==> FiresAt(ticks, i) {
        SameFiring(ticks, i);
      }
      FiresIff(ticks, n);
      if Fires(After(init), ticks[n]) {
        assert FiresAt(ticks, n);
      } else if exists i: nat :: i < n && FiresAt(init, i) && init[i].now == After(init).lastTrigger {
        var i: nat :| i < n && FiresAt(init, i) && init[i].now == After(init).lastTrigger;
        assert FiresAt(ticks, i) && ticks[i].now == After(ticks).lastTrigger;
      }
    }
  }

  lemma NothingFired()
    ensures After([]).lastTrigger == 0.0
  {
  }

  lemma FiresIff(ticks: seq<Tick>, i: nat)
    requires i < |ticks|
    ensures FiresAt(ticks, i) <==> Fires(After(ticks[..i]), ticks[i])
  {
    hide Fires, After;
  }

  lemma SameFiring(ticks: seq<Tick>, i: nat)
    requires i < |ticks| - 1
    ensures FiresAt(ticks[..|ticks| - 1], i) <==> FiresAt(ticks, i)
  {
    hide Fires, After;
    assert ticks[..|ticks| - 1][..i] == ticks[..i];
  }

  lemma FiringNeeds(s: Stream, tick: Tick)
    ensures var window := OnTrade(s, tick).window;
            Fires(s, tick) <==> Lopsided(NotionalOf(window, true), NotionalOf(window, false))
                                && tick.rvol >= tick.rvolThreshold && tick.now - s.lastTrigger > 30.0
  {
    hide NotionalOf, Evict;
  }

  /** On a forward clock, a trade starts a cycle if and only if at least 5000 was traded in the symbol over the last 60
      seconds with more than 60% or less than 40% of it bought, the relative volume reaches its threshold, and every
      cycle that the symbol started before was more than 30 seconds ago (and the clock past 30, if there is none). */
  lemma TriggersExactly(ticks: seq<Tick>, j: nat)
    requires Forward(ticks) && j < |ticks|
    ensures var t, upTo := ticks[j], ticks[..j + 1];
            FiresAt(ticks, j) <==>
              && Lopsided(Volume(upTo, t.now - 60.0, true), Volume(upTo, t.now - 60.0, false))
              && t.rvol >= t.rvolThreshold
              && (forall i: nat | i < j && FiresAt(ticks, i) :: t.now - ticks[i].now > 30.0)
              && ((forall i: nat | i < j :: !FiresAt(ticks, i)) ==> t.now > 30.0)
  {
    hide Fires, After, FiresAt, Lopsided, Volume, OnTrade, Recent, Records, NotionalOf, SignedSum;
    var before, upTo := ticks[..j], ticks[..j + 1];
    assert upTo[..|upTo| - 1] == before && upTo[j] == ticks[j];
    assert Forward(before) && Forward(upTo);
    FiresIff(ticks, j);
    FiringNeeds(After(before), ticks[j]);
    TriggerWindow(upTo);
    WindowIsLastMinute(upTo);
    VolumeIsNotional(upTo, ticks[j].now - 60.0, true);
    VolumeIsNotional(upTo, ticks[j].now - 60.0, false);
    LastTriggerIs(before);
    forall i: nat | i < j ensures FiresAt(before, i) <==> FiresAt(ticks, i) {
      FiresIff(before, i);
      FiresIff(ticks, i);
      assert before[..i] == ticks[..i];
    }
  }
}
