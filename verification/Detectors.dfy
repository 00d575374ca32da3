// The seven detectors.  Four only look at the current state; trade burst, quote stuck and sequence gap
// remember something between calls.  *Next is a detector's state change, *Anomaly what it reports.
module Detectors {
  import opened Domain

  datatype Settings = Settings(
    priceMovePct: real,
    spreadSpikePct: real,
    staleDataMs: U64,
    tradeBurstMultiplier: real,
    tradeBurstMinWarmup: nat,
    quoteStuckMs: U64,
    eventLagSpikeMs: U64,
    depthGapMinIncrement: U64)

  datatype Context = Context(state: MarketState, settings: Settings, now: Millis, eventTime: Millis)

  function AnomalyFrom(context: Context, kind: AnomalyKind, severity: Severity, observed: real, threshold: real): Anomaly {
    Anomaly(context.state.symbol, kind, severity, Some(observed), Some(threshold), context.eventTime, context.now)
  }

  // Milliseconds from one instant to a later one; zero when the clock stepped back.
  function ElapsedMs(from: Millis, to: Millis): nat {
    if to > from then to - from else 0
  }

  function SaturatingDouble(t: U64): U64 {
    if t > U64_MAX / 2 then U64_MAX else 2 * t
  }

  function DurationSeverity(ms: nat, threshold: U64): Severity {
    if ms >= SaturatingDouble(threshold) then Critical else Warning
  }

  function Abs(x: real): real {
    if x < 0.0 then -x else x
  }

  // ----- Detectors without memory -----

  function PriceMoveAnomaly(context: Context): Option<Anomaly> {
    match context.state.signals.priceChangePct
    case None => None
    case Some(change) =>
      var threshold := context.settings.priceMovePct;
      if Abs(change) < threshold then None
      else
        var severity := if Abs(change) >= threshold * 2.0 then Critical else Warning;
        Some(AnomalyFrom(context, PriceMove, severity, change, threshold))
  }

  function SpreadSpikeAnomaly(context: Context): Option<Anomaly> {
    match context.state.signals.spreadPct
    case None => None
    case Some(spread) =>
      if spread < context.settings.spreadSpikePct then None
      else Some(AnomalyFrom(context, SpreadSpike, Warning, spread, context.settings.spreadSpikePct))
  }

  function StaleDataAnomaly(context: Context): Option<Anomaly> {
    match context.state.lastEventTime
    case None => None
    case Some(last) =>
      var age, threshold := ElapsedMs(last, context.now), context.settings.staleDataMs;
      if age < threshold then None
      else Some(AnomalyFrom(context, StaleData, DurationSeverity(age, threshold), age as real, threshold as real))
  }

  function EventLagAnomaly(context: Context): Option<Anomaly> {
    if context.state.lastEventTime.None? || context.state.lastIngestTime.None? then None
    else
      var lag := ElapsedMs(context.state.lastEventTime.value, context.state.lastIngestTime.value);
      var threshold := context.settings.eventLagSpikeMs;
      if lag < threshold then None
      else Some(AnomalyFrom(context, EventLagSpike, DurationSeverity(lag, threshold), lag as real, threshold as real))
  }

  // ----- Trade burst -----

  // A running mean of the rates seen, how many there were, and the last one.
  datatype Burst = Burst(baseline: Option<real>, count: nat, last: Option<real>)

  const NEW_BURST: Burst := Burst(None, 0, None)

  // The mean of n + 1 values, from the mean of the first n and the last one.
  function MeanWith(mean: real, n: nat, x: real): real {
    (mean * n as real + x) / (n + 1) as real
  }

  function BurstThreshold(mean: real, settings: Settings): real {
    mean * settings.tradeBurstMultiplier
  }

  function BurstSeverity(rate: real, threshold: real): Severity {
    if rate >= threshold * 2.0 then Critical else Warning
  }

  function Recorded(b: Burst, rate: real): Burst {
    match b.baseline
    case None => b.(baseline := Some(rate), count := 1)
    case Some(baseline) => b.(baseline := Some(MeanWith(baseline, b.count, rate)), count := b.count + 1)
  }

  function BurstNext(b: Burst, rate: Option<real>): Burst {
    if rate.None? || b.last == rate then b else Recorded(b.(last := rate), rate.value)
  }

  predicate BurstFires(b: Burst, rate: Option<real>, settings: Settings) {
    && rate.Some? && b.last != rate
    && b.baseline.Some? && b.count >= settings.tradeBurstMinWarmup
    && rate.value >= BurstThreshold(b.baseline.value, settings)
  }

  function BurstAnomaly(b: Burst, context: Context): Option<Anomaly> {
    var rate := context.state.signals.tradesPerMinute;
    if BurstFires(b, rate, context.settings) then
      var threshold := BurstThreshold(b.baseline.value, context.settings);
      Some(AnomalyFrom(context, TradeBurst, BurstSeverity(rate.value, threshold), rate.value, threshold))
    else None
  }

  class TradeBurstState {
    ghost const owner: Symbol
    var baseline: Option<real>
    var observationCount: nat
    var lastEvaluatedTradesPerMinute: Option<real>

    ghost function Model(): Burst
      reads this
    {
      Burst(baseline, observationCount, lastEvaluatedTradesPerMinute)
    }

    constructor (ghost owner: Symbol)
      ensures Model() == NEW_BURST && this.owner == owner
    {
      this.owner := owner;
      baseline, observationCount, lastEvaluatedTradesPerMinute := None, 0, None;
    }

    method Evaluate(context: Context) returns (anomaly: Option<Anomaly>)
      modifies this
      ensures Model() == BurstNext(old(Model()), context.state.signals.tradesPerMinute)
      ensures anomaly == BurstAnomaly(old(Model()), context)
    {
      if context.state.signals.tradesPerMinute.None? {
        return None;
      }
      var current := context.state.signals.tradesPerMinute.value;
      if lastEvaluatedTradesPerMinute == Some(current) {
        return None;
      }
      lastEvaluatedTradesPerMinute := Some(current);
      if baseline.None? || observationCount < context.settings.tradeBurstMinWarmup {
        RecordObservation(current);
        return None;
      }
      var threshold := BurstThreshold(baseline.value, context.settings);
      var severity := BurstSeverity(current, threshold);
      anomaly := if current >= threshold
                 then Some(AnomalyFrom(context, TradeBurst, severity, current, threshold))
                 else None;
      RecordObservation(current);
    }

    method RecordObservation(current: real)
      modifies `baseline, `observationCount
      ensures Model() == Recorded(old(Model()), current)
    {
      if baseline.None? {
        baseline, observationCount := Some(current), 1;
        return;
      }
      baseline := Some(MeanWith(baseline.value, observationCount, current));
      observationCount := observationCount + 1;
    }
  }

  // ----- Quote stuck -----

  datatype Signature = Signature(
    bidPrice: real,
    bidQuantity: real,
    askPrice: real,
    askQuantity: real,
    topBidQuantity: Option<real>,
    topAskQuantity: Option<real>)

  function SignatureOf(state: MarketState): Option<Signature> {
    if state.bestBidPrice.None? || state.bestBidQuantity.None? || state.bestAskPrice.None? || state.bestAskQuantity.None?
    then None
    else Some(Signature(state.bestBidPrice.value, state.bestBidQuantity.value,
                        state.bestAskPrice.value, state.bestAskQuantity.value,
                        state.topBidQuantity, state.topAskQuantity))
  }

  // The signature last seen and the event time it was first seen at.
  datatype Stuck = Stuck(signature: Option<Signature>, changedAt: Option<Millis>)

  const NEW_STUCK: Stuck := Stuck(None, None)

  function StuckNext(s: Stuck, signature: Option<Signature>, eventTime: Millis): Stuck {
    if signature.None? then NEW_STUCK
    else if s.signature != signature then Stuck(signature, Some(eventTime))
    else s
  }

  // How long the signature has stayed, when this look repeats the previous one.
  function StuckFor(s: Stuck, signature: Option<Signature>, eventTime: Millis): Option<nat> {
    if signature.None? || s.signature != signature then None
    else Some(if s.changedAt.None? then 0 else ElapsedMs(s.changedAt.value, eventTime))
  }

  function StuckAnomaly(s: Stuck, context: Context): Option<Anomaly> {
    var stuck, threshold := StuckFor(s, SignatureOf(context.state), context.eventTime), context.settings.quoteStuckMs;
    if stuck.None? || stuck.value < threshold then None
    else
      var severity := DurationSeverity(stuck.value, threshold);
      Some(AnomalyFrom(context, QuoteStuck, severity, stuck.value as real, threshold as real))
  }

  class QuoteStuckState {
    ghost const owner: Symbol
    var lastSignature: Option<Signature>
    var lastChangedAt: Option<Millis>

    ghost function Model(): Stuck
      reads this
    {
      Stuck(lastSignature, lastChangedAt)
    }

    constructor (ghost owner: Symbol)
      ensures Model() == NEW_STUCK && this.owner == owner
    {
      this.owner := owner;
      lastSignature, lastChangedAt := None, None;
    }

    method Evaluate(context: Context) returns (anomaly: Option<Anomaly>)
      modifies this
      ensures Model() == StuckNext(old(Model()), SignatureOf(context.state), context.eventTime)
      ensures anomaly == StuckAnomaly(old(Model()), context)
    {
      var signature := SignatureOf(context.state);
      if signature.None? {
        lastSignature, lastChangedAt := None, None;
        return None;
      }
      if lastSignature != signature {
        lastSignature, lastChangedAt := signature, Some(context.eventTime);
        return None;
      }
      var changedAt := if lastChangedAt.None? then context.eventTime else lastChangedAt.value;
      var stuckMs := ElapsedMs(changedAt, context.eventTime);
      var threshold := context.settings.quoteStuckMs;
      if stuckMs < threshold {
        return None;
      }
      var severity := DurationSeverity(stuckMs, threshold);
      return Some(AnomalyFrom(context, QuoteStuck, severity, stuckMs as real, threshold as real));
    }
  }

  // ----- Depth sequence gap -----

  function GapIncrease(lastSeen: Option<nat>, current: nat): nat {
    var previous := if lastSeen.None? then 0 else lastSeen.value;
    if current > previous then current - previous else 0
  }

  predicate GapFires(lastSeen: Option<nat>, current: nat, minIncrement: nat) {
    GapIncrease(lastSeen, current) > 0 && GapIncrease(lastSeen, current) >= minIncrement
  }

  function GapAnomaly(lastSeen: Option<nat>, context: Context): Option<Anomaly> {
    var current, threshold := context.state.depthSequenceGapCount, context.settings.depthGapMinIncrement;
    if !GapFires(lastSeen, current, threshold) then None
    else
      var at := if context.state.lastDepthEventTime.None? then context.eventTime else context.state.lastDepthEventTime.value;
      Some(Anomaly(context.state.symbol, DepthSequenceGap, Warning,
                   Some(GapIncrease(lastSeen, current) as real), Some(threshold as real), at, context.now))
  }

  class DepthSequenceGapState {
    ghost const owner: Symbol
    var lastSeenGapCount: Option<nat>

    constructor (ghost owner: Symbol)
      ensures lastSeenGapCount == None && this.owner == owner
    {
      this.owner := owner;
      lastSeenGapCount := None;
    }

    method Evaluate(context: Context) returns (anomaly: Option<Anomaly>)
      modifies this
      ensures lastSeenGapCount == Some(context.state.depthSequenceGapCount)
      ensures anomaly == GapAnomaly(old(lastSeenGapCount), context)
    {
      var currentCount := context.state.depthSequenceGapCount;
      var previousCount := if lastSeenGapCount.None? then 0 else lastSeenGapCount.value;
      lastSeenGapCount := Some(currentCount);
      if currentCount == 0 || currentCount <= previousCount {
        return None;
      }
      var increment := currentCount - previousCount;
      var threshold := context.settings.depthGapMinIncrement;
      if increment < threshold {
        return None;
      }
      var at := if context.state.lastDepthEventTime.None? then context.eventTime else context.state.lastDepthEventTime.value;
      return Some(Anomaly(context.state.symbol, DepthSequenceGap, Warning,
                          Some(increment as real), Some(threshold as real), at, context.now));
    }
  }
}
