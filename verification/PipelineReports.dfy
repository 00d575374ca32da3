// What the remembering detectors report in a mixed run, told in terms of the symbol's own snapshots
// and book.
module PipelineReports {
  import opened Domain
  import opened Aggregator
  import opened AggregatorLaws
  import opened Detectors
  import opened DetectorLaws
  import opened Engines
  import opened Pipeline
  import opened PipelineLaws

  // What the detectors are shown of this event.
  function ContextAt(initial: Cache, ticks: seq<Tick>, tick: Tick, settings: Settings): Context {
    ContextOf(StateAfterEvent(PipeAfter(initial, ticks, settings), tick.event), settings, tick.now)
  }

  // ----- Sequence gaps -----

  // One when the gap detector reports on the symbol at this event, before the cooldown.
  function GapReportAt(initial: Cache, ticks: seq<Tick>, tick: Tick, settings: Settings, symbol: Symbol): nat {
    var remembered := GapOf(PipeAfter(initial, ticks, settings).engine, symbol);
    if tick.event.Symbol() == symbol && GapAnomaly(remembered, ContextAt(initial, ticks, tick, settings)).Some? then 1
    else 0
  }

  // How often it has reported.
  function RawGapAnomalies(initial: Cache, ticks: seq<Tick>, settings: Settings, symbol: Symbol): nat {
    if ticks == [] then 0
    else
      var front := ticks[..|ticks| - 1];
      RawGapAnomalies(initial, front, settings, symbol)
      + GapReportAt(initial, front, ticks[|ticks| - 1], settings, symbol)
  }

  lemma GapCountStep(m: SymbolModel, event: Event)
    requires m.state.depthSequenceGapCount == m.book.gapCount
    ensures var next := EventApplied(m, event);
            && next.state.depthSequenceGapCount == next.book.gapCount
            && m.book.gapCount <= next.book.gapCount <= m.book.gapCount + 1
            && (m.book.gapCount < next.book.gapCount ==>
                  event.DepthEvent? && next.state.lastDepthEventTime == Some(event.depth.eventTime))
  {
  }

  lemma ClimbsAppend(counts: seq<nat>, count: nat)
    requires ClimbsByOne(counts)
    requires var last := if counts == [] then 0 else counts[|counts| - 1]; last <= count <= last + 1
    ensures ClimbsByOne(counts + [count])
  {
    var all := counts + [count];
    forall i | 0 < i < |all|
      ensures all[i - 1] <= all[i] <= all[i - 1] + 1
    {
      if i < |counts| { assert counts[i - 1] <= counts[i] <= counts[i - 1] + 1; }
    }
  }

  // One event raises the count by at most one, and the state always shows the book's count.
  lemma {:induction false} GapCountsClimb(symbol: Symbol, events: seq<Event>)
    ensures ClimbsByOne(GapCounts(Snapshots(symbol, events)))
    ensures SymbolAfter(symbol, events).state.depthSequenceGapCount == SymbolAfter(symbol, events).book.gapCount
    ensures var counts := GapCounts(Snapshots(symbol, events));
            (if counts == [] then 0 else counts[|counts| - 1]) == SymbolAfter(symbol, events).book.gapCount
  {
    if events != [] {
      var front, last := events[..|events| - 1], events[|events| - 1];
      GapCountsClimb(symbol, front);
      GapCountStep(SymbolAfter(symbol, front), last);
      var states := Snapshots(symbol, events);
      assert states[..|states| - 1] == Snapshots(symbol, front);
      ClimbsAppend(GapCounts(Snapshots(symbol, front)), SymbolAfter(symbol, events).book.gapCount);
    }
  }

  lemma RawGapStep(initial: Cache, ticks: seq<Tick>, tick: Tick, settings: Settings, symbol: Symbol)
    ensures var counts := GapCounts(Shown(symbol, ticks));
            var count := ContextAt(initial, ticks, tick, settings).state.depthSequenceGapCount;
            GapCounts(Shown(symbol, ticks + [tick])) == if tick.event.Symbol() == symbol then counts + [count] else counts
    ensures GapOf(PipeAfter(initial, ticks, settings).engine, symbol) == LastSeen(GapCounts(Shown(symbol, ticks)))
  {
    ShownStep(initial, ticks, tick, settings, symbol);
    MemoriesFollowSnapshots(initial, ticks, settings, symbol);
    var shown := Shown(symbol, ticks);
    var state := ContextAt(initial, ticks, tick, settings).state;
    assert (shown + [state])[..|shown|] == shown;
  }

  lemma ReportsAppend(counts: seq<nat>, count: nat, minIncrement: nat)
    ensures RawGapReports(counts + [count], minIncrement)
            == RawGapReports(counts, minIncrement) + if GapFires(LastSeen(counts), count, minIncrement) then 1 else 0
  {
    assert (counts + [count])[..|counts|] == counts;
  }

  lemma OneMoreReport(initial: Cache, ticks: seq<Tick>, tick: Tick, settings: Settings, symbol: Symbol)
    ensures RawGapReports(GapCounts(Shown(symbol, ticks + [tick])), settings.depthGapMinIncrement)
            == RawGapReports(GapCounts(Shown(symbol, ticks)), settings.depthGapMinIncrement)
               + GapReportAt(initial, ticks, tick, settings, symbol)
  {
    var context, counts := ContextAt(initial, ticks, tick, settings), GapCounts(Shown(symbol, ticks));
    RawGapStep(initial, ticks, tick, settings, symbol);
    GapReported(counts, context);
    ReportsAppend(counts, context.state.depthSequenceGapCount, settings.depthGapMinIncrement);
  }

  lemma {:induction false} RawGapAnomaliesAreReports(
    initial: Cache, ticks: seq<Tick>, settings: Settings, symbol: Symbol)
    ensures RawGapAnomalies(initial, ticks, settings, symbol)
            == RawGapReports(GapCounts(Shown(symbol, ticks)), settings.depthGapMinIncrement)
  {
    hide PipeNext, GapReportAt;
    if ticks != [] {
      var front, last := ticks[..|ticks| - 1], ticks[|ticks| - 1];
      RawGapAnomaliesAreReports(initial, front, settings, symbol);
      OneMoreReport(initial, front, last, settings, symbol);
      assert ticks == front + [last];
    }
  }

  // With a minimum increment of at most one, the raw gap anomalies of a symbol so far are exactly the
  // gaps its book has counted; with a larger one there are none.
  lemma RawGapAnomaliesCountGaps(initial: Cache, ticks: seq<Tick>, settings: Settings, symbol: Symbol)
    ensures RawGapAnomalies(initial, ticks, settings, symbol)
            == if settings.depthGapMinIncrement > 1 then 0
               else SymbolOrNew(PipeAfter(initial, ticks, settings).symbols, symbol).book.gapCount
  {
    var own := EventsOf(symbol, EventsIn(ticks));
    RawGapAnomaliesAreReports(initial, ticks, settings, symbol);
    GapCountsClimb(symbol, own);
    RawReportsCountGaps(GapCounts(Snapshots(symbol, own)), settings.depthGapMinIncrement);
    SymbolsAreFolded(initial, ticks, settings);
    SymbolsAreIndependent(symbol, EventsIn(ticks));
  }

  // ----- Stuck quotes -----

  lemma GrowsByOne(looks: seq<Look>, look: Look)
    requires TimesGrow(looks)
    requires looks != [] ==> looks[|looks| - 1].eventTime <= look.eventTime
    ensures TimesGrow(looks + [look])
  {
    var longer := looks + [look];
    forall i, j | 0 <= i <= j < |longer|
      ensures longer[i].eventTime <= longer[j].eventTime
    {
      if i < j == |looks| { assert looks[i].eventTime <= looks[|looks| - 1].eventTime; }
    }
  }

  lemma ClockOnlyAdvances(symbol: Symbol, events: seq<Event>, event: Event)
    ensures var before, after := SymbolAfter(symbol, events).state, SymbolAfter(symbol, events + [event]).state;
            && after.lastEventTime.Some? && (events != [] ==> before.lastEventTime.Some?)
            && (before.lastEventTime.Some? ==> before.lastEventTime.value <= after.lastEventTime.value)
  {
    hide SymbolAfter;
    SymbolAfterAppend(symbol, events, event);
    LastEventTimeIsMaximum(symbol, events);
    LastEventTimeIsMaximum(symbol, events + [event]);
    ClockStep(SymbolAfter(symbol, events), event);
  }

  lemma SnapshotsStep(symbol: Symbol, events: seq<Event>, event: Event)
    ensures Snapshots(symbol, events + [event])
            == Snapshots(symbol, events) + [SymbolAfter(symbol, events + [event]).state]
  {
    hide SymbolAfter;
    assert (events + [event])[..|events|] == events;
  }

  lemma LastSnapshot(symbol: Symbol, events: seq<Event>)
    requires events != []
    ensures Snapshots(symbol, events)[|events| - 1] == SymbolAfter(symbol, events).state
  {
    hide SymbolAfter;
  }

  // The event times the detectors are shown of a symbol never go back.
  lemma {:induction false} ShownTimesGrow(symbol: Symbol, events: seq<Event>)
    ensures TimesGrow(Looks(Snapshots(symbol, events)))
  {
    hide SymbolAfter, TimesGrow, Snapshots;
    if events == [] {
      NothingGrows(symbol);
    } else {
      var front, last := events[..|events| - 1], events[|events| - 1];
      var before, state := Snapshots(symbol, front), SymbolAfter(symbol, events).state;
      assert events == front + [last];
      ShownTimesGrow(symbol, front);
      ClockOnlyAdvances(symbol, front, last);
      SnapshotsStep(symbol, front, last);
      if front != [] { LastSnapshot(symbol, front); }
      LooksAppend(before, [state]);
      assert Looks([state]) == [LookAt(state)];
      GrowsByOne(Looks(before), LookAt(state));
    }
  }

  lemma NothingGrows(symbol: Symbol)
    ensures TimesGrow(Looks(Snapshots(symbol, [])))
  {
  }

  function StuckAt(initial: Cache, ticks: seq<Tick>, tick: Tick, settings: Settings): Option<nat> {
    var context := ContextAt(initial, ticks, tick, settings);
    StuckFor(StuckOf(PipeAfter(initial, ticks, settings).engine, tick.event.Symbol()),
             SignatureOf(context.state), context.eventTime)
  }

  lemma LooksAppend(states: seq<MarketState>, more: seq<MarketState>)
    ensures Looks(states + more) == Looks(states) + Looks(more)
  {
    var all := states + more;
    forall i | 0 <= i < |all|
      ensures Looks(all)[i] == (Looks(states) + Looks(more))[i]
    {
      assert all[i] == if i < |states| then states[i] else more[i - |states|];
    }
  }

  lemma LooksWithNext(initial: Cache, ticks: seq<Tick>, tick: Tick, settings: Settings)
    ensures var symbol, context := tick.event.Symbol(), ContextAt(initial, ticks, tick, settings);
            var looks, next := Looks(Shown(symbol, ticks)), LookAt(context.state);
            && next.eventTime == context.eventTime && TimesGrow(looks + [next])
            && StuckAt(initial, ticks, tick, settings) == StuckFor(StuckAfter(looks), next.signature, next.eventTime)
  {
    var symbol, context := tick.event.Symbol(), ContextAt(initial, ticks, tick, settings);
    ShownStep(initial, ticks, tick, settings, symbol);
    MemoriesFollowSnapshots(initial, ticks, settings, symbol);
    ShownTimesGrow(symbol, EventsOf(symbol, EventsIn(ticks + [tick])));
    LooksAppend(Shown(symbol, ticks), [context.state]);
    assert Looks([context.state]) == [LookAt(context.state)];
  }

  // The age a stuck quote is reported with is the plain difference between the event time and that of
  // the first snapshot of the streak: the clamp at zero is never used.
  lemma StuckAgeIsStreakAge(initial: Cache, ticks: seq<Tick>, tick: Tick, settings: Settings)
    ensures var context := ContextAt(initial, ticks, tick, settings);
            var looks, stuck := Looks(Shown(tick.event.Symbol(), ticks)), StuckAt(initial, ticks, tick, settings);
            && (stuck.Some? <==> && looks != [] && SignatureOf(context.state).Some?
                                 && looks[|looks| - 1].signature == SignatureOf(context.state))
            && (stuck.Some? ==> var start := looks[StreakStart(looks)].eventTime;
                                start <= context.eventTime && stuck.value == context.eventTime - start)
  {
    LooksWithNext(initial, ticks, tick, settings);
    var looks := Looks(Shown(tick.event.Symbol(), ticks));
    StuckDurationIsExact(looks, LookAt(ContextAt(initial, ticks, tick, settings).state));
  }

  lemma {:induction false} OthersAreNotShown(symbol: Symbol, ticks: seq<Tick>, others: seq<Tick>)
    requires forall i :: 0 <= i < |others| ==> others[i].event.Symbol() != symbol
    ensures Shown(symbol, ticks + others) == Shown(symbol, ticks)
  {
    hide PipeNext, StateAfterEvent;
    if others == [] {
      assert ticks + others == ticks;
    } else {
      var n := |others| - 1;
      OthersAreNotShown(symbol, ticks, others[..n]);
      assert ticks + others == (ticks + others[..n]) + [others[n]];
      ShownStep(map[], ticks + others[..n], others[n], Settings(0.0, 0.0, 0, 0.0, 0, 0, 0, 0), symbol);
    }
  }

  lemma NextLook(initial: Cache, ticks: seq<Tick>, first: Tick, others: seq<Tick>, settings: Settings)
    requires forall i :: 0 <= i < |others| ==> others[i].event.Symbol() != first.event.Symbol()
    ensures var symbol := first.event.Symbol();
            Looks(Shown(symbol, ticks + [first] + others))
            == Looks(Shown(symbol, ticks)) + [LookAt(ContextAt(initial, ticks, first, settings).state)]
  {
    var symbol, state := first.event.Symbol(), ContextAt(initial, ticks, first, settings).state;
    ShownStep(initial, ticks, first, settings, symbol);
    OthersAreNotShown(symbol, ticks + [first], others);
    LooksAppend(Shown(symbol, ticks), [state]);
    assert Looks([state]) == [LookAt(state)];
  }

  // From one event of a symbol to its next, however many events of other symbols lie between, an
  // unchanged signature is reported with an age that has not shrunk.
  lemma StuckAgesNeverShrink(
    initial: Cache, ticks: seq<Tick>, first: Tick, others: seq<Tick>, second: Tick, settings: Settings)
    requires first.event.Symbol() == second.event.Symbol()
    requires forall i :: 0 <= i < |others| ==> others[i].event.Symbol() != first.event.Symbol()
    requires StuckAt(initial, ticks, first, settings).Some?
    requires SignatureOf(ContextAt(initial, ticks, first, settings).state)
             == SignatureOf(ContextAt(initial, ticks + [first] + others, second, settings).state)
    ensures var later := StuckAt(initial, ticks + [first] + others, second, settings);
            later.Some? && StuckAt(initial, ticks, first, settings).value <= later.value
  {
    hide PipeNext, StateAfterEvent;
    var between := ticks + [first] + others;
    var looks := Looks(Shown(first.event.Symbol(), ticks));
    LooksWithNext(initial, ticks, first, settings);
    LooksWithNext(initial, between, second, settings);
    NextLook(initial, ticks, first, others, settings);
    AgesNeverShrink(looks, Looks(Shown(first.event.Symbol(), between)),
                    LookAt(ContextAt(initial, ticks, first, settings).state),
                    LookAt(ContextAt(initial, between, second, settings).state));
  }

  lemma AgesNeverShrink(looks: seq<Look>, longer: seq<Look>, one: Look, two: Look)
    requires longer == looks + [one] && TimesGrow(longer + [two]) && one.signature == two.signature
    requires StuckFor(StuckAfter(looks), one.signature, one.eventTime).Some?
    ensures var first := StuckFor(StuckAfter(looks), one.signature, one.eventTime);
            var second := StuckFor(StuckAfter(longer), two.signature, two.eventTime);
            second.Some? && first.value <= second.value
  {
    assert longer + [two] == looks + [one, two];
    StuckDurationsNeverShrink(looks, one, two);
  }

  // In full: a stuck quote is reported exactly when the snapshot repeats the signature of the one before
  // and the event time is at least the threshold past the first snapshot of the streak.
  lemma StuckReportedExactly(initial: Cache, ticks: seq<Tick>, tick: Tick, settings: Settings)
    ensures var symbol, context := tick.event.Symbol(), ContextAt(initial, ticks, tick, settings);
            var looks, signature := Looks(Shown(symbol, ticks)), SignatureOf(context.state);
            var report := StuckAnomaly(StuckOf(PipeAfter(initial, ticks, settings).engine, symbol), context);
            && (report.Some? <==> && looks != [] && signature.Some? && looks[|looks| - 1].signature == signature
                                  && context.eventTime - looks[StreakStart(looks)].eventTime >= settings.quoteStuckMs)
            && (report.Some? ==>
                  var age := context.eventTime - looks[StreakStart(looks)].eventTime;
                  && Tells(report.value, context, QuoteStuck, Some(age as real), Some(settings.quoteStuckMs as real), context.eventTime)
                  && RatedByDuration(report.value.severity, age, settings.quoteStuckMs))
  {
    hide PipeAfter, StuckAnomaly, StuckAfter, StuckFor, StateAfterEvent, Shown, Looks, SignatureOf, TimesGrow, Tells, RatedByDuration;
    var symbol, context := tick.event.Symbol(), ContextAt(initial, ticks, tick, settings);
    MemoriesFollowSnapshots(initial, ticks, settings, symbol);
    LooksWithNext(initial, ticks, tick, settings);
    StuckReported(Looks(Shown(symbol, ticks)), context);
  }

  // A gap is reported exactly when the event raised the count shown, unless the minimum increment exceeds
  // one; the event was a depth update then, and the report carries its time and an increase of one.
  lemma GapReportedExactly(initial: Cache, ticks: seq<Tick>, tick: Tick, settings: Settings)
    ensures var symbol, context := tick.event.Symbol(), ContextAt(initial, ticks, tick, settings);
            var before := SymbolOrNew(PipeAfter(initial, ticks, settings).symbols, symbol).state.depthSequenceGapCount;
            var report := GapAnomaly(GapOf(PipeAfter(initial, ticks, settings).engine, symbol), context);
            && (report.Some? <==> context.state.depthSequenceGapCount > before && settings.depthGapMinIncrement <= 1)
            && (report.Some? ==>
                  && tick.event.DepthEvent? && report.value.severity.Warning?
                  && Tells(report.value, context, DepthSequenceGap, Some(1.0), Some(settings.depthGapMinIncrement as real),
                           tick.event.depth.eventTime))
  {
    hide PipeAfter, PipeNext, GapAnomaly, SymbolAfter, EventApplied, Snapshots, GapCounts;
    var symbol, context := tick.event.Symbol(), ContextAt(initial, ticks, tick, settings);
    var own := EventsOf(symbol, EventsIn(ticks));
    MemoriesFollowSnapshots(initial, ticks, settings, symbol);
    SymbolsAreFolded(initial, ticks, settings);
    SymbolsAreIndependent(symbol, EventsIn(ticks));
    GapCountsClimb(symbol, own);
    GapCountStep(SymbolAfter(symbol, own), tick.event);
    GapReported(GapCounts(Snapshots(symbol, own)), context);
  }

  // ----- Trade bursts -----

  // A burst is reported exactly when the rate just shown differs from the last one, enough changes of
  // rate were recorded, and it is at least the multiplier times their mean.  The report shows the rate
  // beside that product, and is critical from twice the product on.
  lemma BurstReportedExactly(initial: Cache, ticks: seq<Tick>, tick: Tick, settings: Settings)
    ensures var symbol, context := tick.event.Symbol(), ContextAt(initial, ticks, tick, settings);
            var rate, changes := context.state.signals.tradesPerMinute, Changes(Rates(Shown(symbol, ticks)));
            var report := BurstAnomaly(BurstOf(PipeAfter(initial, ticks, settings).engine, symbol), context);
            && (report.Some? ==> changes != [])
            && (changes != [] ==>
                  var threshold := Mean(changes) * settings.tradeBurstMultiplier;
                  && (report.Some? <==> && rate.Some? && changes[|changes| - 1] != rate.value
                                        && |changes| >= settings.tradeBurstMinWarmup && rate.value >= threshold)
                  && (report.Some? ==>
                        && report.value.threshold.Some? && report.value.threshold.value == threshold
                        && Tells(report.value, context, TradeBurst, rate, report.value.threshold, context.eventTime)
                        && (report.value.severity.Critical? <==> rate.value >= 2.0 * threshold)
                        && !report.value.severity.Info?))
  {
    hide PipeAfter, BurstAnomaly, Changes, Mean, StateAfterEvent, Shown, Rates, BurstAfter, BurstOf;
    MemoriesFollowSnapshots(initial, ticks, settings, tick.event.Symbol());
    BurstRaisedExactly(Rates(Shown(tick.event.Symbol(), ticks)), ContextAt(initial, ticks, tick, settings));
  }
}
