// The event pipeline: fold the event into the market state, write the state to the cache, run the
// detectors, and store what they emit.  Failed cache writes and failed inserts are skipped over.
module Pipeline {
  import opened Domain
  import opened Aggregator
  import opened Detectors
  import opened Engines

  // One received event, the clock reading the detectors see, and how the outside world answered: was
  // the cache write accepted, and the inserts of which anomaly kinds failed.
  datatype Tick = Tick(event: Event, now: Millis, cacheAccepts: bool, failedInserts: set<AnomalyKind>)

  type Cache = map<Symbol, MarketState>

  datatype Pipe = Pipe(
    symbols: Symbols,
    engine: Engine,
    cache: Cache,
    emitted: seq<Anomaly>,
    stored: seq<Anomaly>)

  function NewPipe(cache: Cache): Pipe {
    Pipe(map[], NEW_ENGINE, cache, [], [])
  }

  // The anomalies whose insert did not fail.
  function Surviving(anomalies: seq<Anomaly>, failed: set<AnomalyKind>): seq<Anomaly> {
    if anomalies == [] then []
    else
      var last := anomalies[|anomalies| - 1];
      Surviving(anomalies[..|anomalies| - 1], failed) + if last.kind in failed then [] else [last]
  }

  function StateAfterEvent(pipe: Pipe, event: Event): MarketState {
    EventApplied(SymbolOrNew(pipe.symbols, event.Symbol()), event).state
  }

  function PipeNext(pipe: Pipe, tick: Tick, settings: Settings): Pipe {
    var state := StateAfterEvent(pipe, tick.event);
    var evaluated := Evaluated(pipe.engine, state, settings, tick.now);
    Pipe(ApplyToSymbols(pipe.symbols, tick.event),
         evaluated.0,
         if tick.cacheAccepts then pipe.cache[state.symbol := state] else pipe.cache,
         pipe.emitted + evaluated.1,
         pipe.stored + Surviving(evaluated.1, tick.failedInserts))
  }

  function PipeAfter(cache: Cache, ticks: seq<Tick>, settings: Settings): Pipe {
    if ticks == [] then NewPipe(cache)
    else PipeNext(PipeAfter(cache, ticks[..|ticks| - 1], settings), ticks[|ticks| - 1], settings)
  }

  ghost predicate ValidTicks(ticks: seq<Tick>) {
    forall i :: 0 <= i < |ticks| ==> ticks[i].event.Valid()
  }

  method StoreAnomalies(stored: seq<Anomaly>, anomalies: seq<Anomaly>, failed: set<AnomalyKind>)
    returns (r: seq<Anomaly>)
    ensures r == stored + Surviving(anomalies, failed)
  {
    r := stored;
    for i := 0 to |anomalies|
      invariant r == stored + Surviving(anomalies[..i], failed)
    {
      assert anomalies[..i + 1][..i] == anomalies[..i];
      if anomalies[i].kind !in failed {
        r := r + [anomalies[i]];
      }
    }
    assert anomalies[..|anomalies|] == anomalies;
  }

  ghost predicate Apart(aggregator: MarketStateAggregator, engine: DetectorEngine)
    reads aggregator, engine
  {
    aggregator.Repr !! engine.Repr && engine !in aggregator.Repr && aggregator !in engine.Repr
  }

  method ApplyEvent(aggregator: MarketStateAggregator, engine: DetectorEngine, event: Event)
    returns (latest: MarketState)
    requires aggregator.Valid() && engine.Valid() && Apart(aggregator, engine) && event.Valid()
    modifies aggregator.Repr
    ensures aggregator.Valid() && engine.Valid() && Apart(aggregator, engine)
    ensures fresh(aggregator.Repr - old(aggregator.Repr)) && engine.Repr == old(engine.Repr)
    ensures aggregator.Contents == ApplyToSymbols(old(aggregator.Contents), event)
    ensures latest == aggregator.Contents[event.Symbol()].state
    ensures engine.Contents == old(engine.Contents)
  {
    hide EventApplied;
    var symbol := aggregator.Apply(event);
    var snapshot := aggregator.Snapshot(symbol);
    latest := snapshot.value;
  }

  method DetectAnomalies(
    aggregator: MarketStateAggregator, engine: DetectorEngine, latest: MarketState, settings: Settings, now: Millis)
    returns (anomalies: seq<Anomaly>)
    requires aggregator.Valid() && engine.Valid() && Apart(aggregator, engine)
    modifies engine, engine.Repr
    ensures aggregator.Valid() && engine.Valid() && Apart(aggregator, engine)
    ensures fresh(engine.Repr - old(engine.Repr)) && aggregator.Repr == old(aggregator.Repr)
    ensures engine.Contents == Evaluated(old(engine.Contents), latest, settings, now).0
    ensures anomalies == Evaluated(old(engine.Contents), latest, settings, now).1
    ensures aggregator.Contents == old(aggregator.Contents)
  {
    hide Evaluated;
    anomalies := engine.Evaluate(latest, settings, now);
  }

  lemma PipeStep(initial: Cache, ticks: seq<Tick>, i: nat, settings: Settings)
    requires i < |ticks|
    ensures PipeAfter(initial, ticks[..i + 1], settings)
            == PipeNext(PipeAfter(initial, ticks[..i], settings), ticks[i], settings)
  {
    hide PipeNext;
    assert ticks[..i + 1][..i] == ticks[..i];
  }

  // The objects stand for the first two components of the pipe.
  ghost predicate Denotes(aggregator: MarketStateAggregator, engine: DetectorEngine, pipe: Pipe)
    reads aggregator, aggregator.Repr, engine, engine.Repr
  {
    && aggregator.Valid() && engine.Valid() && Apart(aggregator, engine)
    && aggregator.Contents == pipe.symbols && engine.Contents == pipe.engine
  }

  // One event through the aggregator and the detectors.
  method ProcessEvent(
    aggregator: MarketStateAggregator, engine: DetectorEngine, tick: Tick, settings: Settings, ghost pipe: Pipe)
    returns (latest: MarketState, anomalies: seq<Anomaly>, ghost created: set<object>)
    requires Denotes(aggregator, engine, pipe) && tick.event.Valid()
    modifies aggregator.Repr, engine, engine.Repr
    ensures fresh(created)
    ensures aggregator.Repr + engine.Repr <= old(aggregator.Repr) + old(engine.Repr) + created
    ensures Denotes(aggregator, engine, PipeNext(pipe, tick, settings))
    ensures latest == StateAfterEvent(pipe, tick.event)
    ensures anomalies == Evaluated(pipe.engine, latest, settings, tick.now).1
  {
    hide Evaluated, EventApplied;
    latest := ApplyEvent(aggregator, engine, tick.event);
    created := aggregator.Repr - old(aggregator.Repr);
    anomalies := DetectAnomalies(aggregator, engine, latest, settings, tick.now);
    ghost var memories := engine.Repr - old(engine.Repr);
    assert fresh(memories);
    created := created + memories;
  }

  // Write the cache and the anomaly log.
  method Deliver(
    latest: MarketState, anomalies: seq<Anomaly>, tick: Tick, settings: Settings,
    cache: Cache, emitted: seq<Anomaly>, stored: seq<Anomaly>, ghost pipe: Pipe)
    returns (cache': Cache, emitted': seq<Anomaly>, stored': seq<Anomaly>)
    requires cache == pipe.cache && emitted == pipe.emitted && stored == pipe.stored
    requires latest == StateAfterEvent(pipe, tick.event)
    requires anomalies == Evaluated(pipe.engine, latest, settings, tick.now).1
    ensures var next := PipeNext(pipe, tick, settings);
            cache' == next.cache && emitted' == next.emitted && stored' == next.stored
  {
    hide Evaluated, EventApplied;
    cache' := if tick.cacheAccepts then cache[latest.symbol := latest] else cache;
    emitted' := emitted + anomalies;
    stored' := StoreAnomalies(stored, anomalies, tick.failedInserts);
  }

  // One received event, from the aggregator to the anomaly log.
  method ReceiveEvent(
    aggregator: MarketStateAggregator, engine: DetectorEngine, tick: Tick, settings: Settings,
    cache: Cache, emitted: seq<Anomaly>, stored: seq<Anomaly>, ghost pipe: Pipe)
    returns (cache': Cache, emitted': seq<Anomaly>, stored': seq<Anomaly>, ghost created: set<object>)
    requires Denotes(aggregator, engine, pipe) && tick.event.Valid()
    requires cache == pipe.cache && emitted == pipe.emitted && stored == pipe.stored
    modifies aggregator.Repr, engine, engine.Repr
    ensures fresh(created)
    ensures aggregator.Repr + engine.Repr <= old(aggregator.Repr) + old(engine.Repr) + created
    ensures var next := PipeNext(pipe, tick, settings);
            && Denotes(aggregator, engine, next)
            && cache' == next.cache && emitted' == next.emitted && stored' == next.stored
  {
    hide Evaluated, EventApplied;
    var latest, anomalies;
    latest, anomalies, created := ProcessEvent(aggregator, engine, tick, settings, pipe);
    cache', emitted', stored' := Deliver(latest, anomalies, tick, settings, cache, emitted, stored, pipe);
  }

  // The receive loop.  The channel's contents, the clock and the outside answers are the ticks; the
  // cache and the anomaly log are returned.
  method RunEventPipeline(ticks: seq<Tick>, settings: Settings, initial: Cache)
    returns (processed: nat, cache: Cache, emitted: seq<Anomaly>, stored: seq<Anomaly>)
    requires ValidTicks(ticks)
    ensures var pipe := PipeAfter(initial, ticks, settings);
            processed == |ticks| && cache == pipe.cache && emitted == pipe.emitted && stored == pipe.stored
  {
    hide PipeNext;
    processed, cache, emitted, stored := 0, initial, [], [];
    var aggregator := new MarketStateAggregator();
    var engine := new DetectorEngine();
    ghost var pipe := NewPipe(initial);
    ghost var owned := aggregator.Repr + {engine};
    for i := 0 to |ticks|
      invariant fresh(owned) && aggregator.Repr + engine.Repr <= owned && engine in owned
      invariant Denotes(aggregator, engine, pipe)
      invariant cache == pipe.cache && emitted == pipe.emitted && stored == pipe.stored && processed == i
      invariant pipe == PipeAfter(initial, ticks[..i], settings)
    {
      ghost var created;
      cache, emitted, stored, created :=
        ReceiveEvent(aggregator, engine, ticks[i], settings, cache, emitted, stored, pipe);
      owned := owned + created;
      processed := processed + 1;
      pipe := PipeNext(pipe, ticks[i], settings);
      assert pipe == PipeAfter(initial, ticks[..i + 1], settings) by {
        PipeStep(initial, ticks, i, settings);
      }
    }
    assert ticks[..|ticks|] == ticks;
  }
}
