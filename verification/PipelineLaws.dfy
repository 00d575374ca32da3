// Whole runs of the pipeline: symbols do not influence each other, the cache follows the market
// state, and the detectors' memories are functions of the symbol's own snapshots.
module PipelineLaws {
  import opened Domain
  import opened Aggregator
  import opened AggregatorLaws
  import opened Detectors
  import opened DetectorLaws
  import opened Engines
  import opened Pipeline

  function OwnTicks(symbol: Symbol, ticks: seq<Tick>): seq<Tick> {
    if ticks == [] then []
    else OwnTicks(symbol, ticks[..|ticks| - 1])
         + if ticks[|ticks| - 1].event.Symbol() == symbol then [ticks[|ticks| - 1]] else []
  }

  function OfSymbol(symbol: Symbol, anomalies: seq<Anomaly>): seq<Anomaly> {
    if anomalies == [] then []
    else OfSymbol(symbol, anomalies[..|anomalies| - 1])
         + if anomalies[|anomalies| - 1].symbol == symbol then [anomalies[|anomalies| - 1]] else []
  }

  function CachedAt(cache: Cache, symbol: Symbol): Option<MarketState> {
    if symbol in cache then Some(cache[symbol]) else None
  }

  function LastEmission(emitted: Emissions, symbol: Symbol, kind: AnomalyKind): Option<Millis> {
    if (symbol, kind) in emitted then Some(emitted[(symbol, kind)]) else None
  }

  ghost predicate SameEmissions(e: Emissions, f: Emissions, symbol: Symbol) {
    forall kind :: LastEmission(e, symbol, kind) == LastEmission(f, symbol, kind)
  }

  ghost predicate AllOfSymbol(symbol: Symbol, anomalies: seq<Anomaly>) {
    forall i :: 0 <= i < |anomalies| ==> anomalies[i].symbol == symbol
  }

  // Two engines that cannot be told apart by looking at this symbol.
  ghost predicate SameEngine(e: Engine, f: Engine, symbol: Symbol) {
    && BurstOf(e, symbol) == BurstOf(f, symbol)
    && StuckOf(e, symbol) == StuckOf(f, symbol)
    && GapOf(e, symbol) == GapOf(f, symbol)
    && SameEmissions(e.emitted, f.emitted, symbol)
  }

  ghost predicate SamePipe(p: Pipe, q: Pipe, symbol: Symbol) {
    && SnapshotFor(p.symbols, symbol) == SnapshotFor(q.symbols, symbol)
    && SymbolOrNew(p.symbols, symbol) == SymbolOrNew(q.symbols, symbol)
    && SameEngine(p.engine, q.engine, symbol)
    && CachedAt(p.cache, symbol) == CachedAt(q.cache, symbol)
  }

  // ----- One look at the detectors -----

  // The cooldown of one symbol's anomalies depends on, and changes, that symbol's entries only.
  lemma {:induction false} AdmitIsLocal(e: Emissions, f: Emissions, symbol: Symbol, anomalies: seq<Anomaly>)
    requires AllOfSymbol(symbol, anomalies) && SameEmissions(e, f, symbol)
    ensures Admit(e, anomalies).1 == Admit(f, anomalies).1
    ensures SameEmissions(Admit(e, anomalies).0, Admit(f, anomalies).0, symbol)
    decreases |anomalies|
  {
    if anomalies != [] {
      var first := anomalies[0];
      assert LastEmission(e, symbol, first.kind) == LastEmission(f, symbol, first.kind);
      assert AllOfSymbol(symbol, anomalies[1..]);
      if MayEmit(e, first) {
        var e', f' := e[(symbol, first.kind) := first.createdAt], f[(symbol, first.kind) := first.createdAt];
        forall kind
          ensures LastEmission(e', symbol, kind) == LastEmission(f', symbol, kind)
        {
          assert LastEmission(e, symbol, kind) == LastEmission(f, symbol, kind);
        }
        AdmitIsLocal(e', f', symbol, anomalies[1..]);
      } else {
        AdmitIsLocal(e, f, symbol, anomalies[1..]);
      }
    }
  }

  lemma {:induction false} AdmitLeavesOthers(e: Emissions, symbol: Symbol, other: Symbol, anomalies: seq<Anomaly>)
    requires AllOfSymbol(symbol, anomalies) && other != symbol
    ensures SameEmissions(Admit(e, anomalies).0, e, other)
    decreases |anomalies|
  {
    if anomalies != [] {
      var first := anomalies[0];
      assert AllOfSymbol(symbol, anomalies[1..]);
      if MayEmit(e, first) {
        AdmitLeavesOthers(e[(symbol, first.kind) := first.createdAt], symbol, other, anomalies[1..]);
      } else {
        AdmitLeavesOthers(e, symbol, other, anomalies[1..]);
      }
    }
  }

  lemma {:induction false} AdmittedAreCandidates(e: Emissions, anomalies: seq<Anomaly>)
    ensures forall a :: a in Admit(e, anomalies).1 ==> a in anomalies
    decreases |anomalies|
  {
    if anomalies != [] {
      var first := anomalies[0];
      AdmittedAreCandidates(e[(first.symbol, first.kind) := first.createdAt], anomalies[1..]);
      AdmittedAreCandidates(e, anomalies[1..]);
    }
  }

  // Every report is about the symbol looked at and stamped with the clock reading.
  ghost predicate StampedBy(anomalies: seq<Anomaly>, symbol: Symbol, now: Millis) {
    forall a :: a in anomalies ==> a.symbol == symbol && a.createdAt == now
  }

  lemma {:induction false} ReportsAreStamped(
    kinds: seq<AnomalyKind>, burst: Burst, stuck: Stuck, gap: Option<nat>, context: Context)
    ensures StampedBy(ReportsOf(kinds, burst, stuck, gap, context), context.state.symbol, context.now)
  {
    if kinds != [] { ReportsAreStamped(kinds[..|kinds| - 1], burst, stuck, gap, context); }
  }

  lemma EmittedAreStamped(engine: Engine, state: MarketState, settings: Settings, now: Millis)
    ensures StampedBy(Evaluated(engine, state, settings, now).1, state.symbol, now)
    ensures AllOfSymbol(state.symbol, CandidatesOf(engine, ContextOf(state, settings, now)))
  {
    var context := ContextOf(state, settings, now);
    ReportsAreStamped(DETECTORS, BurstOf(engine, state.symbol), StuckOf(engine, state.symbol), GapOf(engine, state.symbol),
                      context);
    AdmittedAreCandidates(engine.emitted, CandidatesOf(engine, context));
  }

  lemma EvaluationIsLocal(e: Engine, f: Engine, state: MarketState, settings: Settings, now: Millis)
    requires SameEngine(e, f, state.symbol)
    ensures Evaluated(e, state, settings, now).1 == Evaluated(f, state, settings, now).1
    ensures SameEngine(Evaluated(e, state, settings, now).0, Evaluated(f, state, settings, now).0, state.symbol)
  {
    EmittedAreStamped(e, state, settings, now);
    AdmitIsLocal(e.emitted, f.emitted, state.symbol, CandidatesOf(e, ContextOf(state, settings, now)));
  }

  lemma EvaluationLeavesOthers(e: Engine, state: MarketState, settings: Settings, now: Millis, other: Symbol)
    requires other != state.symbol
    ensures SameEngine(Evaluated(e, state, settings, now).0, e, other)
  {
    EmittedAreStamped(e, state, settings, now);
    AdmitLeavesOthers(e.emitted, state.symbol, other, CandidatesOf(e, ContextOf(state, settings, now)));
  }

  // ----- One event -----

  ghost predicate NamesAgree(symbols: Symbols) {
    forall s :: s in symbols ==> symbols[s].state.symbol == s
  }

  lemma EventKeepsName(m: SymbolModel, event: Event)
    ensures EventApplied(m, event).state.symbol == m.state.symbol
  {
  }

  lemma {:induction false} NamesStayRight(initial: Cache, ticks: seq<Tick>, settings: Settings)
    ensures NamesAgree(PipeAfter(initial, ticks, settings).symbols)
  {
    hide Evaluated, EventApplied;
    if ticks != [] {
      var front, last := ticks[..|ticks| - 1], ticks[|ticks| - 1];
      NamesStayRight(initial, front, settings);
      var symbols := PipeAfter(initial, front, settings).symbols;
      EventKeepsName(SymbolOrNew(symbols, last.event.Symbol()), last.event);
    }
  }

  lemma StateIsNamed(pipe: Pipe, event: Event)
    requires NamesAgree(pipe.symbols)
    ensures StateAfterEvent(pipe, event).symbol == event.Symbol()
  {
    EventKeepsName(SymbolOrNew(pipe.symbols, event.Symbol()), event);
  }

  lemma OwnEventIsLocal(p: Pipe, q: Pipe, tick: Tick, settings: Settings)
    requires NamesAgree(p.symbols) && SamePipe(p, q, tick.event.Symbol())
    ensures StateAfterEvent(p, tick.event) == StateAfterEvent(q, tick.event)
    ensures SamePipe(PipeNext(p, tick, settings), PipeNext(q, tick, settings), tick.event.Symbol())
    ensures var state := StateAfterEvent(p, tick.event);
            Evaluated(p.engine, state, settings, tick.now).1 == Evaluated(q.engine, state, settings, tick.now).1
  {
    StateIsNamed(p, tick.event);
    EvaluationIsLocal(p.engine, q.engine, StateAfterEvent(p, tick.event), settings, tick.now);
  }

  lemma OtherEventChangesNothing(p: Pipe, tick: Tick, settings: Settings, symbol: Symbol)
    requires NamesAgree(p.symbols) && tick.event.Symbol() != symbol
    ensures SamePipe(PipeNext(p, tick, settings), p, symbol)
  {
    StateIsNamed(p, tick.event);
    EvaluationLeavesOthers(p.engine, StateAfterEvent(p, tick.event), settings, tick.now, symbol);
  }

  // ----- Logs -----

  lemma {:induction false} OfSymbolConcat(symbol: Symbol, a: seq<Anomaly>, b: seq<Anomaly>)
    ensures OfSymbol(symbol, a + b) == OfSymbol(symbol, a) + OfSymbol(symbol, b)
  {
    if b == [] {
      assert a + b == a;
    } else {
      assert (a + b)[..|a + b| - 1] == a + b[..|b| - 1];
      OfSymbolConcat(symbol, a, b[..|b| - 1]);
    }
  }

  lemma {:induction false} OfSymbolOfOne(symbol: Symbol, anomalies: seq<Anomaly>, other: Symbol)
    requires forall a :: a in anomalies ==> a.symbol == other
    ensures OfSymbol(symbol, anomalies) == if other == symbol then anomalies else []
  {
    if anomalies != [] {
      var front, last := anomalies[..|anomalies| - 1], anomalies[|anomalies| - 1];
      assert anomalies == front + [last];
      OfSymbolOfOne(symbol, front, other);
    }
  }

  lemma {:induction false} SurvivorsAreMembers(anomalies: seq<Anomaly>, failed: set<AnomalyKind>)
    ensures forall a :: a in Surviving(anomalies, failed) <==> a in anomalies && a.kind !in failed
  {
    if anomalies != [] {
      var front, last := anomalies[..|anomalies| - 1], anomalies[|anomalies| - 1];
      assert anomalies == front + [last];
      SurvivorsAreMembers(front, failed);
    }
  }

  lemma LogGrows(log: seq<Anomaly>, more: seq<Anomaly>, speaker: Symbol, symbol: Symbol)
    requires forall a :: a in more ==> a.symbol == speaker
    ensures OfSymbol(symbol, log + more)
            == if speaker == symbol then OfSymbol(symbol, log) + more else OfSymbol(symbol, log)
  {
    OfSymbolConcat(symbol, log, more);
    OfSymbolOfOne(symbol, more, speaker);
    assert OfSymbol(symbol, log) + [] == OfSymbol(symbol, log);
  }

  lemma LogsOfSymbol(pipe: Pipe, tick: Tick, settings: Settings, symbol: Symbol)
    requires NamesAgree(pipe.symbols)
    ensures var next, own := PipeNext(pipe, tick, settings), tick.event.Symbol() == symbol;
            var anomalies := Evaluated(pipe.engine, StateAfterEvent(pipe, tick.event), settings, tick.now).1;
            var survivors := Surviving(anomalies, tick.failedInserts);
            && OfSymbol(symbol, next.emitted)
               == (if own then OfSymbol(symbol, pipe.emitted) + anomalies else OfSymbol(symbol, pipe.emitted))
            && OfSymbol(symbol, next.stored)
               == (if own then OfSymbol(symbol, pipe.stored) + survivors else OfSymbol(symbol, pipe.stored))
  {
    hide Evaluated, StateAfterEvent;
    var state := StateAfterEvent(pipe, tick.event);
    var anomalies := Evaluated(pipe.engine, state, settings, tick.now).1;
    StateIsNamed(pipe, tick.event);
    EmittedAreStamped(pipe.engine, state, settings, tick.now);
    SurvivorsAreMembers(anomalies, tick.failedInserts);
    LogGrows(pipe.emitted, anomalies, tick.event.Symbol(), symbol);
    LogGrows(pipe.stored, Surviving(anomalies, tick.failedInserts), tick.event.Symbol(), symbol);
  }

  // ----- Non-interference -----

  // The second pipe is what the first one looks like to this symbol.
  ghost predicate Projects(mixed: Pipe, alone: Pipe, symbol: Symbol) {
    && SamePipe(mixed, alone, symbol)
    && OfSymbol(symbol, mixed.emitted) == alone.emitted
    && OfSymbol(symbol, mixed.stored) == alone.stored
  }

  lemma OwnEventKeepsProjection(mixed: Pipe, alone: Pipe, tick: Tick, settings: Settings)
    requires NamesAgree(mixed.symbols) && Projects(mixed, alone, tick.event.Symbol())
    ensures Projects(PipeNext(mixed, tick, settings), PipeNext(alone, tick, settings), tick.event.Symbol())
  {
    LogsOfSymbol(mixed, tick, settings, tick.event.Symbol());
    OwnEventIsLocal(mixed, alone, tick, settings);
  }

  lemma SamePipeIsTransitive(p: Pipe, q: Pipe, r: Pipe, symbol: Symbol)
    requires SamePipe(p, q, symbol) && SamePipe(q, r, symbol)
    ensures SamePipe(p, r, symbol)
  {
    forall kind
      ensures LastEmission(p.engine.emitted, symbol, kind) == LastEmission(r.engine.emitted, symbol, kind)
    {
      assert LastEmission(p.engine.emitted, symbol, kind) == LastEmission(q.engine.emitted, symbol, kind);
    }
  }

  lemma OtherEventKeepsProjection(mixed: Pipe, alone: Pipe, tick: Tick, settings: Settings, symbol: Symbol)
    requires NamesAgree(mixed.symbols) && Projects(mixed, alone, symbol) && tick.event.Symbol() != symbol
    ensures Projects(PipeNext(mixed, tick, settings), alone, symbol)
  {
    LogsOfSymbol(mixed, tick, settings, symbol);
    OtherEventChangesNothing(mixed, tick, settings, symbol);
    SamePipeIsTransitive(PipeNext(mixed, tick, settings), mixed, alone, symbol);
  }

  // In a mixed run a symbol's market state, detector memories, cooldowns, cache entry, emitted and
  // stored anomalies are those of a run of its own events alone, at the same clock readings.
  lemma {:induction false} NonInterference(initial: Cache, ticks: seq<Tick>, settings: Settings, symbol: Symbol)
    ensures Projects(PipeAfter(initial, ticks, settings), PipeAfter(initial, OwnTicks(symbol, ticks), settings), symbol)
  {
    if ticks != [] {
      hide PipeNext, Projects;
      var front, last := ticks[..|ticks| - 1], ticks[|ticks| - 1];
      var mixed, own := PipeAfter(initial, front, settings), OwnTicks(symbol, front);
      NonInterference(initial, front, settings, symbol);
      NamesStayRight(initial, front, settings);
      if last.event.Symbol() == symbol {
        assert (own + [last])[..|own|] == own;
        OwnEventKeepsProjection(mixed, PipeAfter(initial, own, settings), last, settings);
      } else {
        assert own + [] == own;
        OtherEventKeepsProjection(mixed, PipeAfter(initial, own, settings), last, settings, symbol);
      }
    }
  }

  // So two runs that agree on a symbol's own events agree on everything observable about it.
  lemma SymbolSeesOnlyItself(initial: Cache, a: seq<Tick>, b: seq<Tick>, settings: Settings, symbol: Symbol)
    requires OwnTicks(symbol, a) == OwnTicks(symbol, b)
    ensures var p, q := PipeAfter(initial, a, settings), PipeAfter(initial, b, settings);
            && OfSymbol(symbol, p.emitted) == OfSymbol(symbol, q.emitted)
            && OfSymbol(symbol, p.stored) == OfSymbol(symbol, q.stored)
            && CachedAt(p.cache, symbol) == CachedAt(q.cache, symbol)
            && SnapshotFor(p.symbols, symbol) == SnapshotFor(q.symbols, symbol)
  {
    NonInterference(initial, a, settings, symbol);
    NonInterference(initial, b, settings, symbol);
  }

  // ----- The cache -----

  predicate Writes(tick: Tick, symbol: Symbol) {
    tick.event.Symbol() == symbol && tick.cacheAccepts
  }

  // The last event of the symbol whose cache write was accepted.
  function LastWrite(symbol: Symbol, ticks: seq<Tick>): (i: Option<nat>)
    ensures i.Some? ==> i.value < |ticks| && Writes(ticks[i.value], symbol)
    ensures forall j :: (if i.None? then 0 else i.value + 1) <= j < |ticks| ==> !Writes(ticks[j], symbol)
  {
    if ticks == [] then None
    else
      var n := |ticks| - 1;
      if Writes(ticks[n], symbol) then Some(n) else LastWrite(symbol, ticks[..n])
  }

  lemma CacheStep(pipe: Pipe, tick: Tick, settings: Settings, symbol: Symbol)
    requires NamesAgree(pipe.symbols)
    ensures var next := PipeNext(pipe, tick, settings);
            CachedAt(next.cache, symbol)
            == if Writes(tick, symbol) then SnapshotFor(next.symbols, symbol)
               else CachedAt(pipe.cache, symbol)
  {
    StateIsNamed(pipe, tick.event);
  }

  lemma {:induction false} NoWriteNoChange(
    initial: Cache, ticks: seq<Tick>, settings: Settings, symbol: Symbol, k: nat)
    requires k <= |ticks|
    requires forall j :: k <= j < |ticks| ==> !Writes(ticks[j], symbol)
    ensures CachedAt(PipeAfter(initial, ticks, settings).cache, symbol)
            == CachedAt(PipeAfter(initial, ticks[..k], settings).cache, symbol)
  {
    hide PipeNext;
    if k == |ticks| {
      assert ticks[..k] == ticks;
    } else {
      var front := ticks[..|ticks| - 1];
      NoWriteNoChange(initial, front, settings, symbol, k);
      assert front[..k] == ticks[..k];
      NamesStayRight(initial, front, settings);
      CacheStep(PipeAfter(initial, front, settings), ticks[|ticks| - 1], settings, symbol);
    }
  }

  // The cached state is the snapshot taken at the last accepted write, or what was there before.
  lemma CacheHoldsLastWrite(initial: Cache, ticks: seq<Tick>, settings: Settings, symbol: Symbol)
    ensures CachedAt(PipeAfter(initial, ticks, settings).cache, symbol)
            == match LastWrite(symbol, ticks)
               case None => CachedAt(initial, symbol)
               case Some(i) => SnapshotFor(PipeAfter(initial, ticks[..i + 1], settings).symbols, symbol)
  {
    match LastWrite(symbol, ticks)
    case None => NoWriteNoChange(initial, ticks, settings, symbol, 0);
    case Some(i) =>
      NoWriteNoChange(initial, ticks, settings, symbol, i + 1);
      NamesStayRight(initial, ticks[..i], settings);
      PipeStep(initial, ticks, i, settings);
      CacheStep(PipeAfter(initial, ticks[..i], settings), ticks[i], settings, symbol);
  }

  lemma SymbolsStep(pipe: Pipe, tick: Tick, settings: Settings, symbol: Symbol)
    requires tick.event.Symbol() != symbol
    ensures SnapshotFor(PipeNext(pipe, tick, settings).symbols, symbol) == SnapshotFor(pipe.symbols, symbol)
  {
  }

  lemma {:induction false} CachedAsSeen(initial: Cache, ticks: seq<Tick>, settings: Settings, symbol: Symbol)
    requires SnapshotFor(PipeAfter(initial, ticks, settings).symbols, symbol).Some?
    requires forall i :: 0 <= i < |ticks| ==> ticks[i].cacheAccepts
    ensures SnapshotFor(PipeAfter(initial, ticks, settings).symbols, symbol)
            == CachedAt(PipeAfter(initial, ticks, settings).cache, symbol)
  {
    hide PipeNext;
    var front, last := ticks[..|ticks| - 1], ticks[|ticks| - 1];
    NamesStayRight(initial, front, settings);
    CacheStep(PipeAfter(initial, front, settings), last, settings, symbol);
    if last.event.Symbol() != symbol {
      SymbolsStep(PipeAfter(initial, front, settings), last, settings, symbol);
      CachedAsSeen(initial, front, settings, symbol);
    }
  }

  // If no cache write fails, then after every event the cache holds exactly the aggregator's snapshot
  // of every symbol seen.
  lemma CacheIsCoherent(initial: Cache, ticks: seq<Tick>, settings: Settings, k: nat, symbol: Symbol)
    requires forall i :: 0 <= i < |ticks| ==> ticks[i].cacheAccepts
    requires k <= |ticks|
    ensures var pipe := PipeAfter(initial, ticks[..k], settings);
            symbol in pipe.symbols ==> CachedAt(pipe.cache, symbol) == Some(pipe.symbols[symbol].state)
  {
    if symbol in PipeAfter(initial, ticks[..k], settings).symbols {
      CachedAsSeen(initial, ticks[..k], settings, symbol);
    }
  }

  // ----- What the detectors remember -----

  function EventsIn(ticks: seq<Tick>): seq<Event> {
    if ticks == [] then [] else EventsIn(ticks[..|ticks| - 1]) + [ticks[|ticks| - 1].event]
  }

  // A symbol's snapshots after each of its own events.
  function Snapshots(symbol: Symbol, events: seq<Event>): (states: seq<MarketState>)
    ensures |states| == |events|
  {
    if events == [] then [] else Snapshots(symbol, events[..|events| - 1]) + [SymbolAfter(symbol, events).state]
  }

  function Rates(states: seq<MarketState>): seq<Option<real>> {
    if states == [] then []
    else Rates(states[..|states| - 1]) + [states[|states| - 1].signals.tradesPerMinute]
  }

  function GapCounts(states: seq<MarketState>): (counts: seq<nat>)
    ensures |counts| == |states|
  {
    if states == [] then []
    else GapCounts(states[..|states| - 1]) + [states[|states| - 1].depthSequenceGapCount]
  }

  function LookAt(state: MarketState): Look {
    Look(SignatureOf(state), if state.lastEventTime.None? then 0 else state.lastEventTime.value)
  }

  function Looks(states: seq<MarketState>): (looks: seq<Look>)
    ensures |looks| == |states|
    ensures forall i :: 0 <= i < |states| ==> looks[i] == LookAt(states[i])
  {
    if states == [] then [] else Looks(states[..|states| - 1]) + [LookAt(states[|states| - 1])]
  }

  // What the pipeline has shown of a symbol so far.
  function Shown(symbol: Symbol, ticks: seq<Tick>): seq<MarketState> {
    Snapshots(symbol, EventsOf(symbol, EventsIn(ticks)))
  }

  lemma {:induction false} SymbolsAreFolded(initial: Cache, ticks: seq<Tick>, settings: Settings)
    ensures PipeAfter(initial, ticks, settings).symbols == SymbolsAfter(EventsIn(ticks))
  {
    hide Evaluated, EventApplied;
    if ticks != [] {
      SymbolsAreFolded(initial, ticks[..|ticks| - 1], settings);
      var events := EventsIn(ticks);
      assert events[..|events| - 1] == EventsIn(ticks[..|ticks| - 1]);
    }
  }

  lemma ShownStep(initial: Cache, ticks: seq<Tick>, tick: Tick, settings: Settings, symbol: Symbol)
    ensures var state := StateAfterEvent(PipeAfter(initial, ticks, settings), tick.event);
            Shown(symbol, ticks + [tick])
            == if tick.event.Symbol() == symbol then Shown(symbol, ticks) + [state] else Shown(symbol, ticks)
    ensures var state := StateAfterEvent(PipeAfter(initial, ticks, settings), tick.event);
            tick.event.Symbol() == symbol ==> state.lastEventTime.Some?
  {
    var events, own := EventsIn(ticks), EventsOf(symbol, EventsIn(ticks));
    assert (ticks + [tick])[..|ticks|] == ticks;
    assert (events + [tick.event])[..|events|] == events;
    if tick.event.Symbol() == symbol {
      SymbolsAreFolded(initial, ticks, settings);
      SymbolsAreIndependent(symbol, events);
      assert (own + [tick.event])[..|own|] == own;
      LastEventTimeIsMaximum(symbol, own + [tick.event]);
    } else {
      assert own + [] == own;
    }
  }

  // The memories are what the detectors compute from the snapshots shown.
  ghost predicate RemembersShown(engine: Engine, symbol: Symbol, shown: seq<MarketState>) {
    && BurstOf(engine, symbol) == BurstAfter(Rates(shown))
    && StuckOf(engine, symbol) == StuckAfter(Looks(shown))
    && GapOf(engine, symbol) == LastSeen(GapCounts(shown))
  }

  lemma BurstShownOneMore(shown: seq<MarketState>, state: MarketState)
    ensures BurstAfter(Rates(shown + [state])) == BurstNext(BurstAfter(Rates(shown)), state.signals.tradesPerMinute)
  {
    var longer := shown + [state];
    assert longer[..|shown|] == shown;
    assert Rates(longer)[..|Rates(longer)| - 1] == Rates(shown);
  }

  lemma StuckShownOneMore(shown: seq<MarketState>, state: MarketState)
    ensures StuckAfter(Looks(shown + [state]))
            == StuckNext(StuckAfter(Looks(shown)), SignatureOf(state), LookAt(state).eventTime)
  {
    var longer := shown + [state];
    assert longer[..|shown|] == shown;
    assert Looks(longer)[..|shown|] == Looks(shown);
  }

  lemma RememberOneMore(engine: Engine, shown: seq<MarketState>, state: MarketState, settings: Settings, now: Millis)
    requires RemembersShown(engine, state.symbol, shown) && state.lastEventTime.Some?
    ensures RemembersShown(Evaluated(engine, state, settings, now).0, state.symbol, shown + [state])
  {
    BurstShownOneMore(shown, state);
    StuckShownOneMore(shown, state);
    MemoriesAfter(engine, state, settings, now);
  }

  lemma MemoriesAfter(engine: Engine, state: MarketState, settings: Settings, now: Millis)
    requires state.lastEventTime.Some?
    ensures var next := Evaluated(engine, state, settings, now).0;
            && BurstOf(next, state.symbol) == BurstNext(BurstOf(engine, state.symbol), state.signals.tradesPerMinute)
            && StuckOf(next, state.symbol)
               == StuckNext(StuckOf(engine, state.symbol), SignatureOf(state), LookAt(state).eventTime)
            && GapOf(next, state.symbol) == Some(state.depthSequenceGapCount)
  {
  }

  lemma MemoriesStep(pipe: Pipe, tick: Tick, settings: Settings, symbol: Symbol, shown: seq<MarketState>)
    requires NamesAgree(pipe.symbols) && RemembersShown(pipe.engine, symbol, shown)
    requires tick.event.Symbol() == symbol ==> StateAfterEvent(pipe, tick.event).lastEventTime.Some?
    ensures RemembersShown(
              PipeNext(pipe, tick, settings).engine, symbol,
              if tick.event.Symbol() == symbol then shown + [StateAfterEvent(pipe, tick.event)] else shown)
  {
    StateIsNamed(pipe, tick.event);
    if tick.event.Symbol() == symbol {
      RememberOneMore(pipe.engine, shown, StateAfterEvent(pipe, tick.event), settings, tick.now);
    } else {
      OtherEventChangesNothing(pipe, tick, settings, symbol);
    }
  }

  lemma MemoriesAndShown(initial: Cache, ticks: seq<Tick>, tick: Tick, settings: Settings, symbol: Symbol)
    requires RemembersShown(PipeAfter(initial, ticks, settings).engine, symbol, Shown(symbol, ticks))
    ensures RemembersShown(PipeNext(PipeAfter(initial, ticks, settings), tick, settings).engine, symbol,
                           Shown(symbol, ticks + [tick]))
  {
    NamesStayRight(initial, ticks, settings);
    ShownStep(initial, ticks, tick, settings, symbol);
    MemoriesStep(PipeAfter(initial, ticks, settings), tick, settings, symbol, Shown(symbol, ticks));
  }

  // After any run each memory is that of its detector fed with the symbol's snapshots, in order.
  lemma {:induction false} MemoriesFollowSnapshots(
    initial: Cache, ticks: seq<Tick>, settings: Settings, symbol: Symbol)
    ensures RemembersShown(PipeAfter(initial, ticks, settings).engine, symbol, Shown(symbol, ticks))
  {
    hide PipeNext, RemembersShown, Shown;
    if ticks == [] {
      NothingShownYet(symbol);
    } else {
      var front, last := ticks[..|ticks| - 1], ticks[|ticks| - 1];
      MemoriesFollowSnapshots(initial, front, settings, symbol);
      MemoriesAndShown(initial, front, last, settings, symbol);
      assert ticks == front + [last];
    }
  }

  lemma NothingShownYet(symbol: Symbol)
    ensures RemembersShown(NEW_ENGINE, symbol, Shown(symbol, []))
  {
  }
}
