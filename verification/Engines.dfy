// Running all detectors on a fresh market state and holding back repetitions: one anomaly kind of one
// symbol is emitted at most once per cooldown.
module Engines {
  import opened Domain
  import opened Detectors

  const DETECTOR_COOLDOWN_SECS: nat := 30

  type Emissions = map<(Symbol, AnomalyKind), Millis>

  datatype Engine = Engine(
    burst: map<Symbol, Burst>,
    stuck: map<Symbol, Stuck>,
    gap: map<Symbol, Option<nat>>,
    emitted: Emissions)

  const NEW_ENGINE: Engine := Engine(map[], map[], map[], map[])

  function BurstOf(engine: Engine, symbol: Symbol): Burst {
    if symbol in engine.burst then engine.burst[symbol] else NEW_BURST
  }

  function StuckOf(engine: Engine, symbol: Symbol): Stuck {
    if symbol in engine.stuck then engine.stuck[symbol] else NEW_STUCK
  }

  function GapOf(engine: Engine, symbol: Symbol): Option<nat> {
    if symbol in engine.gap then engine.gap[symbol] else None
  }

  function ContextOf(state: MarketState, settings: Settings, now: Millis): Context {
    Context(state, settings, now, if state.lastEventTime.None? then now else state.lastEventTime.value)
  }

  function Listed(anomaly: Option<Anomaly>): seq<Anomaly> {
    if anomaly.None? then [] else [anomaly.value]
  }

  // What the detector of this kind reports.
  function Report(kind: AnomalyKind, burst: Burst, stuck: Stuck, gap: Option<nat>, context: Context): Option<Anomaly> {
    match kind
    case PriceMove => PriceMoveAnomaly(context)
    case SpreadSpike => SpreadSpikeAnomaly(context)
    case StaleData => StaleDataAnomaly(context)
    case EventLagSpike => EventLagAnomaly(context)
    case TradeBurst => BurstAnomaly(burst, context)
    case QuoteStuck => StuckAnomaly(stuck, context)
    case DepthSequenceGap => GapAnomaly(gap, context)
  }

  // The order in which the detectors run.
  const DETECTORS: seq<AnomalyKind> :=
    [PriceMove, SpreadSpike, StaleData, EventLagSpike, TradeBurst, QuoteStuck, DepthSequenceGap]

  // The context is in the measure so that a call on a literal list is not unrolled all at once.
  function ReportsOf(
    kinds: seq<AnomalyKind>, burst: Burst, stuck: Stuck, gap: Option<nat>, context: Context): seq<Anomaly>
    decreases |kinds|, context
  {
    if kinds == [] then []
    else ReportsOf(kinds[..|kinds| - 1], burst, stuck, gap, context)
         + Listed(Report(kinds[|kinds| - 1], burst, stuck, gap, context))
  }

  // Everything the detectors report, before the cooldown.
  function Candidates(burst: Burst, stuck: Stuck, gap: Option<nat>, context: Context): seq<Anomaly> {
    ReportsOf(DETECTORS, burst, stuck, gap, context)
  }

  lemma OneMoreReport(
    kinds: seq<AnomalyKind>, kind: AnomalyKind, burst: Burst, stuck: Stuck, gap: Option<nat>, context: Context)
    ensures ReportsOf(kinds + [kind], burst, stuck, gap, context)
            == ReportsOf(kinds, burst, stuck, gap, context) + Listed(Report(kind, burst, stuck, gap, context))
  {
    assert (kinds + [kind])[..|kinds|] == kinds;
  }

  // The seven reports one after the other.
  lemma CandidatesInOrder(burst: Burst, stuck: Stuck, gap: Option<nat>, context: Context)
    ensures Candidates(burst, stuck, gap, context)
            == Listed(PriceMoveAnomaly(context)) + Listed(SpreadSpikeAnomaly(context)) + Listed(StaleDataAnomaly(context))
               + Listed(EventLagAnomaly(context)) + Listed(BurstAnomaly(burst, context))
               + Listed(StuckAnomaly(stuck, context)) + Listed(GapAnomaly(gap, context))
  {
    hide PriceMoveAnomaly, SpreadSpikeAnomaly, StaleDataAnomaly, EventLagAnomaly, BurstAnomaly, StuckAnomaly, GapAnomaly;
    hide Listed;
    var one := [PriceMove];
    var three := one + [SpreadSpike] + [StaleData];
    var five := three + [EventLagSpike] + [TradeBurst];
    OneMoreReport([], PriceMove, burst, stuck, gap, context);
    OneMoreReport(one, SpreadSpike, burst, stuck, gap, context);
    OneMoreReport(one + [SpreadSpike], StaleData, burst, stuck, gap, context);
    OneMoreReport(three, EventLagSpike, burst, stuck, gap, context);
    OneMoreReport(three + [EventLagSpike], TradeBurst, burst, stuck, gap, context);
    OneMoreReport(five, QuoteStuck, burst, stuck, gap, context);
    OneMoreReport(five + [QuoteStuck], DepthSequenceGap, burst, stuck, gap, context);
    assert [] + [PriceMove] == one && DETECTORS == five + [QuoteStuck] + [DepthSequenceGap];
    assert [] + Listed(PriceMoveAnomaly(context)) == Listed(PriceMoveAnomaly(context));
  }

  // Whole seconds since the previous emission have reached the cooldown; a clock that stepped back
  // counts as no time at all.
  predicate CooledDown(previous: Millis, createdAt: Millis) {
    ElapsedMs(previous, createdAt) / 1000 >= DETECTOR_COOLDOWN_SECS
  }

  predicate MayEmit(emitted: Emissions, anomaly: Anomaly) {
    var key := (anomaly.symbol, anomaly.kind);
    key in emitted ==> CooledDown(emitted[key], anomaly.createdAt)
  }

  // The cooldown run over a list of anomalies: the new bookkeeping and what gets through.
  function Admit(emitted: Emissions, anomalies: seq<Anomaly>): (Emissions, seq<Anomaly>)
    decreases |anomalies|
  {
    if anomalies == [] then (emitted, [])
    else
      var first := anomalies[0];
      if MayEmit(emitted, first) then
        var rest := Admit(emitted[(first.symbol, first.kind) := first.createdAt], anomalies[1..]);
        (rest.0, [first] + rest.1)
      else Admit(emitted, anomalies[1..])
  }

  // The detectors' memories after one look.
  function Observed(engine: Engine, context: Context): Engine {
    var symbol, state := context.state.symbol, context.state;
    Engine(engine.burst[symbol := BurstNext(BurstOf(engine, symbol), state.signals.tradesPerMinute)],
           engine.stuck[symbol := StuckNext(StuckOf(engine, symbol), SignatureOf(state), context.eventTime)],
           engine.gap[symbol := Some(state.depthSequenceGapCount)],
           engine.emitted)
  }

  // The three memories are updated one after the other and do not see each other.
  lemma ObservedStepwise(engine: Engine, context: Context)
    ensures var symbol, state := context.state.symbol, context.state;
            var burst := BurstNext(BurstOf(engine, symbol), state.signals.tradesPerMinute);
            var first := engine.(burst := engine.burst[symbol := burst]);
            var stuck := StuckNext(StuckOf(first, symbol), SignatureOf(state), context.eventTime);
            var second := first.(stuck := first.stuck[symbol := stuck]);
            && StuckOf(first, symbol) == StuckOf(engine, symbol) && GapOf(second, symbol) == GapOf(engine, symbol)
            && second.(gap := second.gap[symbol := Some(state.depthSequenceGapCount)]) == Observed(engine, context)
  {
  }

  function CandidatesOf(engine: Engine, context: Context): seq<Anomaly> {
    var symbol := context.state.symbol;
    Candidates(BurstOf(engine, symbol), StuckOf(engine, symbol), GapOf(engine, symbol), context)
  }

  function Evaluated(engine: Engine, state: MarketState, settings: Settings, now: Millis): (Engine, seq<Anomaly>) {
    var context := ContextOf(state, settings, now);
    var admitted := Admit(engine.emitted, CandidatesOf(engine, context));
    (Observed(engine, context).(emitted := admitted.0), admitted.1)
  }

  // A map with an entry for the symbol, the given one if it was missing.
  function Entered<T>(m: map<Symbol, T>, symbol: Symbol, missing: T): map<Symbol, T> {
    if symbol in m then m else m[symbol := missing]
  }

  lemma EnterThenPut<T>(m: map<Symbol, T>, symbol: Symbol, missing: T, value: T)
    ensures Entered(m, symbol, missing)[symbol := value] == m[symbol := value]
  {
  }

  class DetectorEngine {
    var tradeBurstState: map<Symbol, TradeBurstState>
    var quoteStuckState: map<Symbol, QuoteStuckState>
    var depthSequenceGapState: map<Symbol, DepthSequenceGapState>
    var lastEmitted: Emissions
    ghost var Contents: Engine
    ghost var Repr: set<object>

    ghost predicate Valid()
      reads this, Repr
    {
      && this !in Repr
      && Contents.burst.Keys == tradeBurstState.Keys
      && (forall s :: s in tradeBurstState ==>
            && tradeBurstState[s] in Repr && tradeBurstState[s].owner == s
            && tradeBurstState[s].Model() == Contents.burst[s])
      && Contents.stuck.Keys == quoteStuckState.Keys
      && (forall s :: s in quoteStuckState ==>
            && quoteStuckState[s] in Repr && quoteStuckState[s].owner == s
            && quoteStuckState[s].Model() == Contents.stuck[s])
      && Contents.gap.Keys == depthSequenceGapState.Keys
      && (forall s :: s in depthSequenceGapState ==>
            && depthSequenceGapState[s] in Repr && depthSequenceGapState[s].owner == s
            && depthSequenceGapState[s].lastSeenGapCount == Contents.gap[s])
      && Contents.emitted == lastEmitted
    }

    constructor ()
      ensures Valid() && Repr == {} && Contents == NEW_ENGINE
    {
      tradeBurstState, quoteStuckState, depthSequenceGapState, lastEmitted := map[], map[], map[], map[];
      Contents, Repr := NEW_ENGINE, {};
    }

    method Evaluate(state: MarketState, settings: Settings, now: Millis) returns (emitted: seq<Anomaly>)
      requires Valid()
      modifies this, Repr
      ensures Valid() && fresh(Repr - old(Repr))
      ensures Contents == Evaluated(old(Contents), state, settings, now).0
      ensures emitted == Evaluated(old(Contents), state, settings, now).1
    {
      var context := ContextOf(state, settings, now);
      var anomalies := Detect(context);
      emitted := FilterByCooldown(anomalies);
    }

    method Detect(context: Context) returns (anomalies: seq<Anomaly>)
      requires Valid()
      modifies this, Repr
      ensures Valid() && fresh(Repr - old(Repr))
      ensures anomalies == CandidatesOf(old(Contents), context)
      ensures Contents == Observed(old(Contents), context)
    {
      ghost var before := Contents;
      var burst := EvaluateTradeBurst(context);
      var stuck := EvaluateQuoteStuck(context);
      assert fresh(Repr - old(Repr));
      ObservedStepwise(before, context);
      var gap := EvaluateDepthSequenceGap(context);
      anomalies := Listed(PriceMoveAnomaly(context)) + Listed(SpreadSpikeAnomaly(context))
                   + Listed(StaleDataAnomaly(context)) + Listed(EventLagAnomaly(context))
                   + Listed(burst) + Listed(stuck) + Listed(gap);
      var symbol := context.state.symbol;
      CandidatesInOrder(BurstOf(before, symbol), StuckOf(before, symbol), GapOf(before, symbol), context);
    }

    method EvaluateTradeBurst(context: Context) returns (anomaly: Option<Anomaly>)
      requires Valid()
      modifies this, Repr
      ensures Valid() && fresh(Repr - old(Repr))
      ensures var symbol := context.state.symbol;
              var entry := BurstOf(old(Contents), symbol);
              var next := BurstNext(entry, context.state.signals.tradesPerMinute);
              && anomaly == BurstAnomaly(entry, context)
              && Contents == old(Contents).(burst := old(Contents).burst[symbol := next])
    {
      var symbol := context.state.symbol;
      ghost var next := BurstNext(BurstOf(Contents, symbol), context.state.signals.tradesPerMinute);
      EnterThenPut(Contents.burst, symbol, NEW_BURST, next);
      TradeBurstEntry(symbol);
      anomaly := LookAtTradeBurst(context);
    }

    // The symbol's own state takes one look; no other object changes.
    method LookAtTradeBurst(context: Context) returns (anomaly: Option<Anomaly>)
      requires Valid() && context.state.symbol in tradeBurstState
      modifies `Contents, tradeBurstState[context.state.symbol]
      ensures Valid()
      ensures var symbol, entry := context.state.symbol, old(Contents).burst[context.state.symbol];
              var next := BurstNext(entry, context.state.signals.tradesPerMinute);
              && anomaly == BurstAnomaly(entry, context)
              && Contents == old(Contents).(burst := old(Contents).burst[symbol := next])
    {
      var symbol := context.state.symbol;
      ghost var before := Contents;
      var state := tradeBurstState[symbol];
      anomaly := state.Evaluate(context);
      Contents := Contents.(burst := before.burst[symbol := state.Model()]);
      forall s | s in tradeBurstState
        ensures tradeBurstState[s] in Repr && tradeBurstState[s].owner == s
        ensures tradeBurstState[s].Model() == Contents.burst[s]
      {
        if s != symbol {
          assert tradeBurstState[s].Model() == before.burst[s];
        }
      }
    }

    // The symbol's detector state, created on first use.
    method TradeBurstEntry(symbol: Symbol)
      requires Valid()
      modifies this
      ensures Valid() && fresh(Repr - old(Repr)) && symbol in tradeBurstState
      ensures Contents == old(Contents).(burst := Entered(old(Contents).burst, symbol, NEW_BURST))
    {
      if symbol !in tradeBurstState {
        var created := new TradeBurstState(symbol);
        tradeBurstState := tradeBurstState[symbol := created];
        Contents := Contents.(burst := Contents.burst[symbol := NEW_BURST]);
        Repr := Repr + {created};
      }
    }

    method EvaluateQuoteStuck(context: Context) returns (anomaly: Option<Anomaly>)
      requires Valid()
      modifies this, Repr
      ensures Valid() && fresh(Repr - old(Repr))
      ensures var symbol := context.state.symbol;
              var entry := StuckOf(old(Contents), symbol);
              var next := StuckNext(entry, SignatureOf(context.state), context.eventTime);
              && anomaly == StuckAnomaly(entry, context)
              && Contents == old(Contents).(stuck := old(Contents).stuck[symbol := next])
    {
      var symbol := context.state.symbol;
      ghost var next := StuckNext(StuckOf(Contents, symbol), SignatureOf(context.state), context.eventTime);
      EnterThenPut(Contents.stuck, symbol, NEW_STUCK, next);
      QuoteStuckEntry(symbol);
      anomaly := LookAtQuoteStuck(context);
    }

    // The symbol's own state takes one look; no other object changes.
    method LookAtQuoteStuck(context: Context) returns (anomaly: Option<Anomaly>)
      requires Valid() && context.state.symbol in quoteStuckState
      modifies `Contents, quoteStuckState[context.state.symbol]
      ensures Valid()
      ensures var symbol, entry := context.state.symbol, old(Contents).stuck[context.state.symbol];
              var next := StuckNext(entry, SignatureOf(context.state), context.eventTime);
              && anomaly == StuckAnomaly(entry, context)
              && Contents == old(Contents).(stuck := old(Contents).stuck[symbol := next])
    {
      var symbol := context.state.symbol;
      ghost var before := Contents;
      var state := quoteStuckState[symbol];
      anomaly := state.Evaluate(context);
      Contents := Contents.(stuck := before.stuck[symbol := state.Model()]);
      forall s | s in quoteStuckState
        ensures quoteStuckState[s] in Repr && quoteStuckState[s].owner == s
        ensures quoteStuckState[s].Model() == Contents.stuck[s]
      {
        if s != symbol {
          assert quoteStuckState[s].Model() == before.stuck[s];
        }
      }
    }

    method QuoteStuckEntry(symbol: Symbol)
      requires Valid()
      modifies this
      ensures Valid() && fresh(Repr - old(Repr)) && symbol in quoteStuckState
      ensures Contents == old(Contents).(stuck := Entered(old(Contents).stuck, symbol, NEW_STUCK))
    {
      if symbol !in quoteStuckState {
        var created := new QuoteStuckState(symbol);
        quoteStuckState := quoteStuckState[symbol := created];
        Contents := Contents.(stuck := Contents.stuck[symbol := NEW_STUCK]);
        Repr := Repr + {created};
      }
    }

    method EvaluateDepthSequenceGap(context: Context) returns (anomaly: Option<Anomaly>)
      requires Valid()
      modifies this, Repr
      ensures Valid() && fresh(Repr - old(Repr))
      ensures var symbol := context.state.symbol;
              var entry := GapOf(old(Contents), symbol);
              && anomaly == GapAnomaly(entry, context)
              && Contents == old(Contents).(gap := old(Contents).gap[symbol := Some(context.state.depthSequenceGapCount)])
    {
      var symbol := context.state.symbol;
      ghost var next: Option<nat> := Some(context.state.depthSequenceGapCount);
      EnterThenPut(Contents.gap, symbol, None, next);
      DepthSequenceGapEntry(symbol);
      anomaly := LookAtDepthSequenceGap(context);
    }

    // The symbol's own state takes one look; no other object changes.
    method LookAtDepthSequenceGap(context: Context) returns (anomaly: Option<Anomaly>)
      requires Valid() && context.state.symbol in depthSequenceGapState
      modifies `Contents, depthSequenceGapState[context.state.symbol]
      ensures Valid()
      ensures var symbol, entry := context.state.symbol, old(Contents).gap[context.state.symbol];
              && anomaly == GapAnomaly(entry, context)
              && Contents == old(Contents).(gap := old(Contents).gap[symbol := Some(context.state.depthSequenceGapCount)])
    {
      var symbol := context.state.symbol;
      ghost var before := Contents;
      var state := depthSequenceGapState[symbol];
      anomaly := state.Evaluate(context);
      Contents := Contents.(gap := before.gap[symbol := state.lastSeenGapCount]);
      forall s | s in depthSequenceGapState
        ensures depthSequenceGapState[s] in Repr && depthSequenceGapState[s].owner == s
        ensures depthSequenceGapState[s].lastSeenGapCount == Contents.gap[s]
      {
        if s != symbol {
          assert depthSequenceGapState[s].lastSeenGapCount == before.gap[s];
        }
      }
    }

    method DepthSequenceGapEntry(symbol: Symbol)
      requires Valid()
      modifies this
      ensures Valid() && fresh(Repr - old(Repr)) && symbol in depthSequenceGapState
      ensures Contents == old(Contents).(gap := Entered(old(Contents).gap, symbol, None))
    {
      if symbol !in depthSequenceGapState {
        var created := new DepthSequenceGapState(symbol);
        depthSequenceGapState := depthSequenceGapState[symbol := created];
        Contents := Contents.(gap := Contents.gap[symbol := None]);
        Repr := Repr + {created};
      }
    }

    method FilterByCooldown(anomalies: seq<Anomaly>) returns (emitted: seq<Anomaly>)
      requires Valid()
      modifies `lastEmitted, `Contents
      ensures Valid() && Contents == old(Contents).(emitted := Admit(old(lastEmitted), anomalies).0)
      ensures emitted == Admit(old(lastEmitted), anomalies).1
    {
      emitted := [];
      assert anomalies[0..] == anomalies;
      for i := 0 to |anomalies|
        invariant Contents == old(Contents)
        invariant Admit(old(lastEmitted), anomalies).0 == Admit(lastEmitted, anomalies[i..]).0
        invariant Admit(old(lastEmitted), anomalies).1 == emitted + Admit(lastEmitted, anomalies[i..]).1
      {
        assert anomalies[i..][1..] == anomalies[i + 1..];
        var emit := ShouldEmit(anomalies[i]);
        if emit {
          emitted := emitted + [anomalies[i]];
        }
      }
      Contents := Contents.(emitted := lastEmitted);
    }

    method ShouldEmit(anomaly: Anomaly) returns (emit: bool)
      modifies `lastEmitted
      ensures emit == MayEmit(old(lastEmitted), anomaly)
      ensures lastEmitted == if emit then old(lastEmitted)[(anomaly.symbol, anomaly.kind) := anomaly.createdAt]
                             else old(lastEmitted)
    {
      var key := (anomaly.symbol, anomaly.kind);
      if key in lastEmitted {
        var elapsed := ElapsedMs(lastEmitted[key], anomaly.createdAt) / 1000;
        if elapsed < DETECTOR_COOLDOWN_SECS {
          return false;
        }
      }
      lastEmitted := lastEmitted[key := anomaly.createdAt];
      return true;
    }
  }
}
