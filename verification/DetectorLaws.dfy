// What each remembering detector has computed after a whole sequence of looks.
module DetectorLaws {
  import opened Domain
  import opened Detectors

  // The anomaly is about this state, and shows this measurement beside this threshold.
  ghost predicate Tells(
    anomaly: Anomaly, context: Context, kind: AnomalyKind, observed: Option<real>, threshold: Option<real>, eventTime: Millis)
  {
    && anomaly.symbol == context.state.symbol && anomaly.kind == kind
    && anomaly.observed == observed && anomaly.threshold == threshold
    && anomaly.eventTime == eventTime && anomaly.createdAt == context.now
  }

  // Critical from twice the threshold on; where doubling exceeds 64 bits, only at the largest number.
  ghost predicate RatedByDuration(severity: Severity, ms: nat, threshold: nat) {
    && (severity.Critical? <==> ms >= 2 * threshold || ms >= U64_MAX)
    && !severity.Info?
  }

  // ----- Detectors without memory -----

  // A price move is reported exactly when the change, up or down, reaches the threshold.
  lemma PriceMoveReported(context: Context)
    ensures var change, threshold := context.state.signals.priceChangePct, context.settings.priceMovePct;
            var report := PriceMoveAnomaly(context);
            && (report.Some? <==> change.Some? && (change.value >= threshold || change.value <= -threshold))
            && (report.Some? ==>
                  && Tells(report.value, context, PriceMove, change, Some(threshold), context.eventTime)
                  && (report.value.severity.Critical?
                      <==> change.value >= 2.0 * threshold || change.value <= -2.0 * threshold)
                  && !report.value.severity.Info?)
  {
  }

  lemma SpreadSpikeReported(context: Context)
    ensures var spread, threshold := context.state.signals.spreadPct, context.settings.spreadSpikePct;
            var report := SpreadSpikeAnomaly(context);
            && (report.Some? <==> spread.Some? && spread.value >= threshold)
            && (report.Some? ==>
                  && Tells(report.value, context, SpreadSpike, spread, Some(threshold), context.eventTime)
                  && report.value.severity.Warning?)
  {
  }

  // Stale data is measured from the last event to the clock reading, event lag from the last event to the
  // last ingest; a negative difference counts as zero.
  lemma StaleDataReported(context: Context)
    ensures var last, threshold := context.state.lastEventTime, context.settings.staleDataMs;
            var report := StaleDataAnomaly(context);
            && (report.Some? <==> last.Some? && (threshold == 0 || context.now - last.value >= threshold))
            && (report.Some? ==>
                  var age := if context.now < last.value then 0 else context.now - last.value;
                  && Tells(report.value, context, StaleData, Some(age as real), Some(threshold as real), context.eventTime)
                  && RatedByDuration(report.value.severity, age, threshold))
  {
  }

  lemma EventLagReported(context: Context)
    ensures var last, ingest := context.state.lastEventTime, context.state.lastIngestTime;
            var threshold, report := context.settings.eventLagSpikeMs, EventLagAnomaly(context);
            && (report.Some? <==> last.Some? && ingest.Some? && (threshold == 0 || ingest.value - last.value >= threshold))
            && (report.Some? ==>
                  var lag := if ingest.value < last.value then 0 else ingest.value - last.value;
                  && Tells(report.value, context, EventLagSpike, Some(lag as real), Some(threshold as real), context.eventTime)
                  && RatedByDuration(report.value.severity, lag, threshold))
  {
  }

  // ----- Trade burst: the baseline is the mean of the changes of rate -----

  function BurstAfter(rates: seq<Option<real>>): Burst {
    if rates == [] then NEW_BURST
    else BurstNext(BurstAfter(rates[..|rates| - 1]), rates[|rates| - 1])
  }

  // The known rates with consecutive repetitions removed.
  function Changes(rates: seq<Option<real>>): seq<real> {
    if rates == [] then []
    else
      var before, last := Changes(rates[..|rates| - 1]), rates[|rates| - 1];
      if last.None? || (before != [] && before[|before| - 1] == last.value) then before else before + [last.value]
  }

  function Sum(xs: seq<real>): real {
    if xs == [] then 0.0 else Sum(xs[..|xs| - 1]) + xs[|xs| - 1]
  }

  function Mean(xs: seq<real>): real
    requires xs != []
  {
    Sum(xs) / |xs| as real
  }

  lemma MeanStep(xs: seq<real>, x: real)
    requires xs != []
    ensures MeanWith(Mean(xs), |xs|, x) == Mean(xs + [x])
  {
    assert (xs + [x])[..|xs|] == xs;
    var n := |xs| as real;
    assert Mean(xs) * n == Sum(xs);
  }

  lemma MeanOfOne(x: real)
    ensures Mean([x]) == x
  {
    assert [x][..0] == [];
    assert Sum([x]) == x;
    assert Mean([x]) == x / 1.0;
  }

  // The running state that a list of recorded changes stands for.
  ghost predicate Summarizes(b: Burst, changes: seq<real>) {
    && b.count == |changes|
    && b.baseline == (if changes == [] then None else Some(Mean(changes)))
    && b.last == (if changes == [] then None else Some(changes[|changes| - 1]))
  }

  lemma RecordedSummarizes(b: Burst, changes: seq<real>, rate: real)
    requires Summarizes(b, changes)
    ensures Summarizes(Recorded(b.(last := Some(rate)), rate), changes + [rate])
  {
    if changes == [] {
      assert changes + [rate] == [rate];
      MeanOfOne(rate);
    } else {
      MeanStep(changes, rate);
    }
  }

  lemma {:induction false} BaselineIsMeanOfChanges(rates: seq<Option<real>>)
    ensures Summarizes(BurstAfter(rates), Changes(rates))
  {
    if rates != [] {
      var front, last := rates[..|rates| - 1], rates[|rates| - 1];
      BaselineIsMeanOfChanges(front);
      if last.Some? {
        RecordedSummarizes(BurstAfter(front), Changes(front), last.value);
      }
    }
  }

  // One look of the burst detector in numbers.
  lemma BurstLook(b: Burst, threshold: real, context: Context)
    requires b.baseline.Some? ==> threshold == b.baseline.value * context.settings.tradeBurstMultiplier
    ensures var rate, report := context.state.signals.tradesPerMinute, BurstAnomaly(b, context);
            && (report.Some? <==> && rate.Some? && b.last != rate && b.baseline.Some?
                                  && b.count >= context.settings.tradeBurstMinWarmup && rate.value >= threshold)
            && (report.Some? ==>
                  && Tells(report.value, context, TradeBurst, rate, Some(threshold), context.eventTime)
                  && (report.value.severity.Critical? <==> rate.value >= 2.0 * threshold)
                  && !report.value.severity.Info?)
  {
    if b.baseline.Some? { assert BurstThreshold(b.baseline.value, context.settings) == threshold; }
  }

  // After any history a burst is reported exactly when the rate is known and new, enough changes were
  // recorded, and the rate is at least the multiplier times the mean of all of them.  The report shows the
  // rate beside that product, and is critical from twice the product on.
  lemma BurstRaisedExactly(rates: seq<Option<real>>, context: Context)
    ensures var rate, changes := context.state.signals.tradesPerMinute, Changes(rates);
            var report := BurstAnomaly(BurstAfter(rates), context);
            && (report.Some? ==> changes != [])
            && (changes != [] ==>
                  var threshold := Mean(changes) * context.settings.tradeBurstMultiplier;
                  && (report.Some? <==> && rate.Some? && changes[|changes| - 1] != rate.value
                                        && |changes| >= context.settings.tradeBurstMinWarmup && rate.value >= threshold)
                  && (report.Some? ==>
                        && report.value.threshold.Some? && report.value.threshold.value == threshold
                        && Tells(report.value, context, TradeBurst, rate, report.value.threshold, context.eventTime)
                        && (report.value.severity.Critical? <==> rate.value >= 2.0 * threshold)
                        && !report.value.severity.Info?))
  {
    hide Changes, Mean, BurstAfter, BurstAnomaly;
    BaselineIsMeanOfChanges(rates);
    var changes := Changes(rates);
    BurstLook(BurstAfter(rates), if changes == [] then 0.0 else Mean(changes) * context.settings.tradeBurstMultiplier, context);
  }

  // ----- Quote stuck: the age of the current streak -----

  datatype Look = Look(signature: Option<Signature>, eventTime: Millis)

  function StuckAfter(looks: seq<Look>): Stuck {
    if looks == [] then NEW_STUCK
    else
      var last := looks[|looks| - 1];
      StuckNext(StuckAfter(looks[..|looks| - 1]), last.signature, last.eventTime)
  }

  // Where the run of looks with the final signature begins.
  function StreakStart(looks: seq<Look>): (i: nat)
    requires looks != []
    ensures i < |looks|
    ensures forall j :: i <= j < |looks| ==> looks[j].signature == looks[|looks| - 1].signature
    ensures i > 0 ==> looks[i - 1].signature != looks[|looks| - 1].signature
  {
    var n := |looks| - 1;
    if n == 0 || looks[n - 1].signature != looks[n].signature then n else StreakStart(looks[..n])
  }

  // The detector remembers the current signature and the event time of the first look of its streak.
  lemma {:induction false} StuckRemembersStreak(looks: seq<Look>)
    requires looks != []
    ensures var last := looks[|looks| - 1];
            StuckAfter(looks) == if last.signature.None? then NEW_STUCK
                                 else Stuck(last.signature, Some(looks[StreakStart(looks)].eventTime))
  {
    var n := |looks| - 1;
    var front := looks[..n];
    if n == 0 {
      assert front == [];
    } else {
      StuckRemembersStreak(front);
    }
  }

  ghost predicate TimesGrow(looks: seq<Look>) {
    forall i, j :: 0 <= i <= j < |looks| ==> looks[i].eventTime <= looks[j].eventTime
  }

  // With growing event times the reported duration is the plain difference to the start of the streak:
  // the clamp at zero is never used.
  lemma StuckDurationIsExact(looks: seq<Look>, next: Look)
    requires TimesGrow(looks + [next])
    ensures var stuck := StuckFor(StuckAfter(looks), next.signature, next.eventTime);
            && (stuck.Some? <==> looks != [] && next.signature.Some? && looks[|looks| - 1].signature == next.signature)
            && (stuck.Some? ==>
                  var start := looks[StreakStart(looks)].eventTime;
                  start <= next.eventTime && stuck.value == next.eventTime - start)
  {
    if looks != [] {
      StuckRemembersStreak(looks);
      GrowsFrom(looks, next, StreakStart(looks));
    }
  }

  lemma GrowsFrom(looks: seq<Look>, next: Look, i: nat)
    requires TimesGrow(looks + [next]) && i < |looks|
    ensures looks[i].eventTime <= next.eventTime
  {
    var all := looks + [next];
    assert all[i] == looks[i] && all[|looks|] == next;
  }

  // A signature is known exactly when all four best prices and quantities are, and two states have the
  // same one exactly when those four and the two top quantities of the book agree.
  lemma SameSignatureIff(a: MarketState, b: MarketState)
    ensures SignatureOf(a).Some?
            <==> a.bestBidPrice.Some? && a.bestBidQuantity.Some? && a.bestAskPrice.Some? && a.bestAskQuantity.Some?
    ensures SignatureOf(a).Some? && SignatureOf(b).Some? ==>
              (SignatureOf(a) == SignatureOf(b)
               <==> && a.bestBidPrice == b.bestBidPrice && a.bestBidQuantity == b.bestBidQuantity
                    && a.bestAskPrice == b.bestAskPrice && a.bestAskQuantity == b.bestAskQuantity
                    && a.topBidQuantity == b.topBidQuantity && a.topAskQuantity == b.topAskQuantity)
  {
  }

  // A stuck quote is reported exactly when the look repeats the one before and the streak is as old as the
  // threshold; the report shows that age.
  lemma StuckReported(looks: seq<Look>, context: Context)
    requires TimesGrow(looks + [Look(SignatureOf(context.state), context.eventTime)])
    ensures var signature, threshold := SignatureOf(context.state), context.settings.quoteStuckMs;
            var report := StuckAnomaly(StuckAfter(looks), context);
            && (report.Some? <==> && looks != [] && signature.Some? && looks[|looks| - 1].signature == signature
                                  && context.eventTime - looks[StreakStart(looks)].eventTime >= threshold)
            && (report.Some? ==>
                  var age := context.eventTime - looks[StreakStart(looks)].eventTime;
                  && Tells(report.value, context, QuoteStuck, Some(age as real), Some(threshold as real), context.eventTime)
                  && RatedByDuration(report.value.severity, age, threshold))
  {
    hide TimesGrow, SignatureOf, StuckAfter, StuckFor;
    StuckDurationIsExact(looks, Look(SignatureOf(context.state), context.eventTime));
  }

  // Within a streak durations never shrink, so once the threshold is reached it stays reached.
  lemma StuckDurationsNeverShrink(looks: seq<Look>, next: Look, later: Look)
    requires TimesGrow(looks + [next, later])
    requires next.signature == later.signature
    requires StuckFor(StuckAfter(looks), next.signature, next.eventTime).Some?
    ensures var first := StuckFor(StuckAfter(looks), next.signature, next.eventTime);
            var second := StuckFor(StuckAfter(looks + [next]), later.signature, later.eventTime);
            second.Some? && first.value <= second.value
  {
    var all := looks + [next, later];
    var longer := looks + [next];
    assert longer[..|looks|] == looks;
    assert TimesGrow(longer) by {
      forall i, j | 0 <= i <= j < |longer|
        ensures longer[i].eventTime <= longer[j].eventTime
      {
        assert all[i] == longer[i] && all[j] == longer[j];
      }
    }
    StuckDurationIsExact(looks, next);
    assert longer + [later] == all;
    StuckDurationIsExact(longer, later);
    assert all[|looks|] == next && all[|looks| + 1] == later;
    assert StreakStart(longer) == StreakStart(looks);
    assert longer[StreakStart(looks)] == looks[StreakStart(looks)];
  }

  // ----- Sequence gap: raw reports and the count they report on -----

  ghost predicate ClimbsByOne(counts: seq<nat>) {
    && (forall i :: 0 < i < |counts| ==> counts[i - 1] <= counts[i] <= counts[i - 1] + 1)
    && (counts != [] ==> counts[0] <= 1)
  }

  function LastSeen(counts: seq<nat>): Option<nat> {
    if counts == [] then None else Some(counts[|counts| - 1])
  }

  // How often the detector fires over the counts it is shown.
  function RawGapReports(counts: seq<nat>, minIncrement: nat): nat {
    if counts == [] then 0
    else
      var n := |counts| - 1;
      RawGapReports(counts[..n], minIncrement)
      + if GapFires(LastSeen(counts[..n]), counts[n], minIncrement) then 1 else 0
  }

  // A count that climbs by at most one per look is reported exactly as often as it climbed; an
  // increment threshold above one silences the detector.
  lemma {:induction false} RawReportsCountGaps(counts: seq<nat>, minIncrement: nat)
    requires ClimbsByOne(counts)
    ensures RawGapReports(counts, minIncrement)
            == if minIncrement > 1 || counts == [] then 0 else counts[|counts| - 1]
  {
    if counts != [] {
      var n := |counts| - 1;
      var front := counts[..n];
      assert ClimbsByOne(front) by {
        forall i | 0 < i < n
          ensures front[i - 1] <= front[i] <= front[i - 1] + 1
        {
          assert counts[i - 1] == front[i - 1] && counts[i] == front[i];
        }
      }
      RawReportsCountGaps(front, minIncrement);
      if n > 0 { assert front[n - 1] == counts[n - 1]; }
    }
  }

  // A gap is reported exactly when the count shown exceeds the one shown before, by the minimum increment
  // or more; the report shows the increase, as of the last depth update.
  lemma GapReported(counts: seq<nat>, context: Context)
    ensures var previous, count := if counts == [] then 0 else counts[|counts| - 1], context.state.depthSequenceGapCount;
            var threshold, report := context.settings.depthGapMinIncrement, GapAnomaly(LastSeen(counts), context);
            && (report.Some? <==> count > previous && count - previous >= threshold)
            && (report.Some? ==>
                  var depthTime := context.state.lastDepthEventTime;
                  && Tells(report.value, context, DepthSequenceGap, Some((count - previous) as real), Some(threshold as real),
                           if depthTime.Some? then depthTime.value else context.eventTime)
                  && report.value.severity.Warning?)
  {
  }
}
